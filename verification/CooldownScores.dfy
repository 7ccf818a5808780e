/** What a city's score is worth, and until when a server is on cooldown. */
module CooldownScores {
  import opened Common
  import opened CooldownSpec
  import opened CooldownProofs

  // ---- the score ----

  /** Places of the servers that are off cooldown. */
  function OffCooldown(city: City, cooldown: map<Key, int>, now: int): set<int>
  {
    set i | 0 <= i < |city.servers| && (city.servers[i] in cooldown ==> cooldown[city.servers[i]] <= now)
  }

  lemma {:induction false} CountsActive(city: City, cooldown: map<Key, int>, now: int)
    ensures ActiveServers(city.servers, cooldown, now) == |OffCooldown(city, cooldown, now)|
    decreases |city.servers|
  {
    var off := OffCooldown(city, cooldown, now);
    if city.servers == [] {
      assert off == {};
    } else {
      var n := |city.servers| - 1;
      var front := city.(servers := city.servers[..n]);
      CountsActive(front, cooldown, now);
      var before := OffCooldown(front, cooldown, now);
      if OnCooldown(cooldown, city.servers[n], now) {
        assert off == before;
      } else {
        assert off == before + {n};
      }
    }
  }

  /** The latencies measured for the servers, in order; nothing has been measured below one millisecond. */
  function Measured(servers: seq<Key>, latency: map<Key, nat>): seq<nat>
  {
    if servers == [] then []
    else (if servers[0] in latency && latency[servers[0]] > 0 then [latency[servers[0]]] else [])
         + Measured(servers[1..], latency)
  }

  function Total(xs: seq<nat>): nat { if xs == [] then 0 else xs[0] + Total(xs[1..]) }

  lemma {:induction false} TotalAppend(a: seq<nat>, b: seq<nat>)
    ensures Total(a + b) == Total(a) + Total(b)
    decreases |a|
  {
    if a == [] {
      assert a + b == b;
    } else {
      assert (a + b)[1..] == a[1..] + b;
      TotalAppend(a[1..], b);
    }
  }

  lemma {:induction false} MeasuredAppend(a: seq<Key>, b: seq<Key>, latency: map<Key, nat>)
    ensures Measured(a + b, latency) == Measured(a, latency) + Measured(b, latency)
    decreases |a|
  {
    if a == [] {
      assert a + b == b;
    } else {
      assert (a + b)[1..] == a[1..] + b;
      MeasuredAppend(a[1..], b, latency);
    }
  }

  lemma {:induction false} SamplesAreMeasured(servers: seq<Key>, latency: map<Key, nat>)
    ensures Samples(servers, latency) == (|Measured(servers, latency)|, Total(Measured(servers, latency)))
    decreases |servers|
  {
    if servers != [] {
      var front, last := servers[..|servers| - 1], [servers[|servers| - 1]];
      assert servers == front + last;
      SamplesAreMeasured(front, latency);
      MeasuredAppend(front, last, latency);
      TotalAppend(Measured(front, latency), Measured(last, latency));
      assert Measured(last[1..], latency) == [];
      assert last[0] in latency && latency[last[0]] > 0 ==> Total([latency[last[0]]]) == latency[last[0]];
    }
  }

  /** The mean of `n` values, rounded up. */
  predicate IsMeanUp(mean: int, total: int, n: nat)
  {
    n > 0 && n * (mean - 1) < total <= n * mean
  }

  lemma MeanUpUnique(a: int, b: int, total: int, n: nat)
    requires IsMeanUp(a, total, n) && IsMeanUp(b, total, n)
    ensures a == b
  {
    if a < b {
      ProductOrder(n, a, b - 1);
    } else if b < a {
      ProductOrder(n, b, a - 1);
    }
  }

  lemma ProductOrder(n: nat, a: int, b: int)
    requires a <= b
    ensures n * a <= n * b
  {
  }

  lemma {:induction false} MeasuredPositive(servers: seq<Key>, latency: map<Key, nat>)
    ensures Total(Measured(servers, latency)) >= |Measured(servers, latency)|
    decreases |servers|
  {
    if servers != [] {
      var head := if servers[0] in latency && latency[servers[0]] > 0 then [latency[servers[0]]] else [];
      MeasuredPositive(servers[1..], latency);
      TotalAppend(head, Measured(servers[1..], latency));
      assert head != [] ==> Total(head) == head[0];
    }
  }

  lemma {:induction false} MeasuredExists(servers: seq<Key>, latency: map<Key, nat>)
    ensures Measured(servers, latency) != [] ==> latency != map[]
    decreases |servers|
  {
    if servers != [] {
      MeasuredExists(servers[1..], latency);
    }
  }

  function Point(b: bool): int { if b then 1 else 0 }

  /** The points of an available city: one, and one more each for three servers off cooldown, for the user's own
      country, for a mean latency below the overall mean, and for one below 30 milliseconds as well; at most four. */
  ghost predicate ScoredBy(score: int, city: City, latency: map<Key, nat>, cooldown: map<Key, int>, origin: string,
                           now: int)
  {
    var off, measured := OffCooldown(city, cooldown, now), Measured(city.servers, latency);
    if off == {} then score == -1
    else
      var base := 1 + Point(|off| >= 3) + Point(origin != "" && origin == city.country);
      if measured == [] then score == base
      else forall mean, overall ::
             IsMeanUp(mean, Total(measured), |measured|) && IsMeanUp(overall, SumValues(latency), |latency|) ==>
               var points := base + Point(mean < overall) + Point(mean < overall && mean < 30);
               score == if points > 4 then 4 else points
  }

  lemma CeilDivIsMeanUp(total: nat, n: nat)
    requires n > 0
    ensures IsMeanUp(CeilDiv(total, n), total, n)
  {
    CeilDivMeaning(total, n);
  }

  lemma BasePoints(city: City, cooldown: map<Key, int>, origin: string, now: int)
    ensures BaseScore(city, cooldown, origin, now)
         == if OffCooldown(city, cooldown, now) == {} then -1
            else 1 + Point(|OffCooldown(city, cooldown, now)| >= 3) + Point(origin != "" && origin == city.country)
  {
    CountsActive(city, cooldown, now);
  }

  /** Every score given is exactly that, while the running sum is the sum of the latencies. */
  lemma ScoreExactly(city: City, ix: Index, origin: string, now: int)
    requires ix.sum == SumValues(ix.latency)
    ensures ScoredBy(Score(city, ix, origin, now), city, ix.latency, ix.cooldown, origin, now)
  {
    var measured := Measured(city.servers, ix.latency);
    BasePoints(city, ix.cooldown, origin, now);
    SamplesAreMeasured(city.servers, ix.latency);
    if measured != [] {
      MeasuredExists(city.servers, ix.latency);
      MeasuredPositive(city.servers, ix.latency);
      var average, all := CityLatency(city, ix.latency), CeilDiv(ix.sum, |ix.latency|);
      CeilDivIsMeanUp(Total(measured), |measured|);
      assert average >= 1;
      CeilDivIsMeanUp(ix.sum, |ix.latency|);
      forall mean, overall | IsMeanUp(mean, Total(measured), |measured|)
                             && IsMeanUp(overall, SumValues(ix.latency), |ix.latency|)
        ensures mean == average && overall == all
      {
        MeanUpUnique(mean, average, Total(measured), |measured|);
        MeanUpUnique(overall, all, ix.sum, |ix.latency|);
      }
    }
  }

  /** Rescoring gives the server's city exactly the score of its servers, and leaves every other city alone. */
  lemma RescoredExactly(ix: Index, dir: seq<City>, key: Key, origin: string, now: int, c: nat)
    requires ValidDirectory(dir) && |ix.scores| == |dir| && c < |dir| && ix.sum == SumValues(ix.latency)
    ensures var ix' := Rescore(ix, dir, key, origin, now);
            && ix'.latency == ix.latency && ix'.cooldown == ix.cooldown && |ix'.scores| == |dir|
            && if key in dir[c].servers
               then ScoredBy(ix'.scores[c], dir[c], ix.latency, ix.cooldown, origin, now)
               else ix'.scores[c] == ix.scores[c]
  {
    if key in dir[c].servers {
      CityIsUnique(dir, key, c);
      ScoreExactly(dir[c], ix, origin, now);
    }
  }

  /** After the latency of one of its servers has been set, a city has exactly the score of its servers, and every other
      city the one it had. */
  lemma ScoredAfterLatency(ix: Index, dir: seq<City>, key: Key, msec: nat, origin: string, nowMs: nat, c: nat)
    requires ValidDirectory(dir) && |ix.scores| == |dir| && c < |dir| && ix.sum == SumValues(ix.latency)
    ensures var ix' := SetLatency(ix, dir, key, msec, origin, nowMs);
            && ix'.latency == ix.latency[key := msec] && ix'.cooldown == ix.cooldown && |ix'.scores| == |dir|
            && if key in dir[c].servers
               then ScoredBy(ix'.scores[c], dir[c], ix'.latency, ix'.cooldown, origin, nowMs / 1000)
               else ix'.scores[c] == ix.scores[c]
  {
    SetLatencySum(ix, dir, key, msec, origin, nowMs);
    var was := if key in ix.latency then ix.latency[key] else 0;
    RescoredExactly(ix.(sum := ix.sum - was + msec, latency := ix.latency[key := msec]), dir, key, origin,
                    nowMs / 1000, c);
  }

  /** The same after a cooldown of one of its servers has been set or lifted. */
  lemma ScoredAfterCooldown(ix: Index, dir: seq<City>, key: Key, timeout: int, origin: string, nowMs: nat, c: nat)
    requires ValidDirectory(dir) && |ix.scores| == |dir| && c < |dir| && ix.sum == SumValues(ix.latency)
    ensures var ix' := SetCooldown(ix, dir, key, timeout, origin, nowMs);
            && ix'.latency == ix.latency && |ix'.scores| == |dir|
            && if key in dir[c].servers
               then ScoredBy(ix'.scores[c], dir[c], ix'.latency, ix'.cooldown, origin, nowMs / 1000)
               else ix'.scores[c] == ix.scores[c]
  {
    var now := nowMs / 1000;
    var cooldown := if timeout <= 0 then ix.cooldown - {key} else ix.cooldown[key := now + timeout];
    RescoredExactly(ix.(cooldown := cooldown), dir, key, origin, now, c);
  }

  /** The same when the timer clears expired cooldowns: each city that lost one is scored exactly. */
  lemma ScoredAfterClearing(ix: Index, ix': Index, dir: seq<City>, origin: string, nowMs: nat, c: nat)
    requires Cleared(ix, ix', dir, origin, nowMs) && c < |dir| && ix.sum == SumValues(ix.latency)
    ensures if exists k <- dir[c].servers :: k in ix.cooldown && ix.cooldown[k] <= nowMs / 1000
            then ScoredBy(ix'.scores[c], dir[c], ix'.latency, ix'.cooldown, origin, nowMs / 1000)
            else ix'.scores[c] == ix.scores[c]
  {
    ScoreExactly(dir[c], ix', origin, nowMs / 1000);
  }

  // ---- until when a server is on cooldown ----

  /** When the last cooldown set for a server expires, in seconds, as the first `n` events tell. */
  ghost function Expiry(dir: seq<City>, es: seq<Event>, n: nat, key: Key): Option<int>
    requires n <= |es|
  {
    if n == 0 then None
    else
      var e := es[n - 1];
      match e.op
      case Cooldown(k, timeout) =>
        if k != key then Expiry(dir, es, n - 1, key)
        else if timeout <= 0 then None
        else Some(e.nowMs / 1000 + timeout)
      case CityCooldown(country, code, timeout) =>
        if exists c :: 0 <= c < |dir| && dir[c].country == country && dir[c].code == code && key in dir[c].servers
        then Some(e.nowMs / 1000 + timeout)
        else Expiry(dir, es, n - 1, key)
      case _ => Expiry(dir, es, n - 1, key)
  }

  lemma CityCooldownSets(ix: Index, dir: seq<City>, country: string, code: string, timeout: int, nowMs: nat, key: Key)
    requires ValidDirectory(dir) && |ix.scores| == |dir|
    ensures var ix' := SetCityCooldown(ix, dir, country, code, timeout, nowMs);
            if exists c :: 0 <= c < |dir| && dir[c].country == country && dir[c].code == code && key in dir[c].servers
            then key in ix'.cooldown && ix'.cooldown[key] == nowMs / 1000 + timeout
            else (key in ix'.cooldown <==> key in ix.cooldown)
                 && (key in ix.cooldown ==> ix'.cooldown[key] == ix.cooldown[key])
  {
    var r := FindCity(dir, country, code);
    if r.Some? {
      CoolAllMeaning(ix.cooldown, dir[r.value].servers, nowMs / 1000 + timeout, key);
    }
  }

  /** In every run a server is on cooldown at any later time exactly until its last cooldown expires. */
  lemma {:induction false} OnCooldownUntilExpiry(dir: seq<City>, xs: seq<Index>, es: seq<Event>, n: nat, key: Key,
                                                 t: int)
    requires IsRun(dir, xs, es) && n <= |es| && t >= Clock(es, n)
    ensures OnCooldown(xs[n].cooldown, key, t) <==> Expiry(dir, es, n, key).Some? && Expiry(dir, es, n, key).value > t
    decreases n
  {
    if n > 0 {
      RunStep(dir, xs, es, n - 1);
      OnCooldownUntilExpiry(dir, xs, es, n - 1, key, t);
      CooldownStep(xs[n - 1], xs[n], dir, es, n, key, t);
    }
  }

  lemma CooldownStep(ix: Index, ix': Index, dir: seq<City>, es: seq<Event>, n: nat, key: Key, t: int)
    requires ValidDirectory(dir) && 0 < n <= |es| && t >= es[n - 1].nowMs / 1000 && Next(ix, ix', dir, es[n - 1])
    requires OnCooldown(ix.cooldown, key, t)
         <==> Expiry(dir, es, n - 1, key).Some? && Expiry(dir, es, n - 1, key).value > t
    ensures OnCooldown(ix'.cooldown, key, t) <==> Expiry(dir, es, n, key).Some? && Expiry(dir, es, n, key).value > t
  {
    var e := es[n - 1];
    match e.op
    case Latency(_, _) =>
    case Cooldown(k, timeout) =>
    case CityCooldown(country, code, timeout) => CityCooldownSets(ix, dir, country, code, timeout, e.nowMs, key);
    case TimerFires =>
  }

  lemma CityTimerIsSooner(ix: Index, dir: seq<City>, country: string, code: string, timeout: int, nowMs: nat)
    requires |ix.scores| == |dir| && NotDue(ix, nowMs) && timeout >= 0
    requires exists c :: 0 <= c < |dir| && dir[c].country == country && dir[c].code == code
    ensures SetCityCooldown(ix, dir, country, code, timeout, nowMs).timer
         == if ix.timer.Some? && ix.timer.value <= nowMs + timeout then ix.timer else Some(nowMs + timeout)
  {
  }

  /** Setting a cooldown never puts the timer off: with a timeout that is not negative it fires when it was going to, or
      that many milliseconds from now, whichever is sooner. */
  lemma TimerIsSooner(ix: Index, dir: seq<City>, key: Key, timeout: int, origin: string, nowMs: nat)
    requires |ix.scores| == |dir| && NotDue(ix, nowMs) && timeout >= 0
    ensures SetCooldown(ix, dir, key, timeout, origin, nowMs).timer
         == if ix.timer.Some? && ix.timer.value <= nowMs + timeout then ix.timer else Some(nowMs + timeout)
  {
  }
}
