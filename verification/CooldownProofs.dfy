/** The cached scores and the cooldown timer agree with the recorded cooldowns, whatever the order of events. */
module CooldownProofs {
  import opened Common
  import opened CooldownSpec

  ghost predicate AllRecorded(ix: Index, city: City)
  {
    forall k <- city.servers :: k in ix.cooldown
  }

  ghost predicate AllOnCooldown(ix: Index, city: City, now: int)
  {
    forall k <- city.servers :: OnCooldown(ix.cooldown, k, now)
  }

  /** Between events a city scored unavailable has every server recorded, and one whose servers are all still on
      cooldown is scored unavailable. */
  ghost predicate ScoresAgree(ix: Index, dir: seq<City>, now: int)
  {
    && |ix.scores| == |dir|
    && forall c :: 0 <= c < |dir| && dir[c].servers != [] ==>
         && (ix.scores[c] == UNAVAILABLE ==> AllRecorded(ix, dir[c]))
         && (AllOnCooldown(ix, dir[c], now) ==> ix.scores[c] == UNAVAILABLE)
  }

  /** While a cooldown is recorded, the timer fires no later than the earliest expiry. */
  ghost predicate TimerCovers(ix: Index)
  {
    ix.cooldown == map[] || (ix.timer.Some? && forall k <- ix.cooldown :: ix.timer.value <= 1000 * ix.cooldown[k])
  }

  lemma {:induction false} NoActiveServers(servers: seq<Key>, cooldown: map<Key, int>, now: int)
    ensures ActiveServers(servers, cooldown, now) == 0 <==> forall k <- servers :: OnCooldown(cooldown, k, now)
    decreases |servers|
  {
    if servers != [] {
      NoActiveServers(servers[..|servers| - 1], cooldown, now);
      assert servers == servers[..|servers| - 1] + [servers[|servers| - 1]];
    }
  }

  /** A fresh score is `UNAVAILABLE` exactly when every server is on cooldown, and between poor and excellent
      otherwise. */
  lemma ScoreMeaning(city: City, ix: Index, origin: string, now: int)
    ensures Score(city, ix, origin, now) == UNAVAILABLE <==> AllOnCooldown(ix, city, now)
    ensures Score(city, ix, origin, now) != UNAVAILABLE ==> POOR <= Score(city, ix, origin, now) <= EXCELLENT
  {
    NoActiveServers(city.servers, ix.cooldown, now);
  }

  lemma CityIsUnique(dir: seq<City>, key: Key, c: nat)
    requires ValidDirectory(dir) && c < |dir| && key in dir[c].servers
    ensures CityOf(dir, key) == Some(c)
  {
  }

  /** Rescoring the city of the only server whose cooldown changed restores agreement. */
  lemma RescoreAgrees(ix: Index, ix1: Index, dir: seq<City>, key: Key, origin: string, now: int)
    requires ValidDirectory(dir) && ScoresAgree(ix, dir, now)
    requires ix1.scores == ix.scores
    requires forall k :: k != key ==>
               (k in ix1.cooldown <==> k in ix.cooldown) && (k in ix.cooldown ==> ix1.cooldown[k] == ix.cooldown[k])
    ensures ScoresAgree(Rescore(ix1, dir, key, origin, now), dir, now)
  {
    var ix2 := Rescore(ix1, dir, key, origin, now);
    forall c | 0 <= c < |dir| && dir[c].servers != []
      ensures ix2.scores[c] == UNAVAILABLE ==> AllRecorded(ix2, dir[c])
      ensures AllOnCooldown(ix2, dir[c], now) ==> ix2.scores[c] == UNAVAILABLE
    {
      if key in dir[c].servers {
        CityIsUnique(dir, key, c);
        ScoreMeaning(dir[c], ix1, origin, now);
      } else {
        assert forall k <- dir[c].servers :: k != key;
        assert AllRecorded(ix, dir[c]) <==> AllRecorded(ix2, dir[c]);
        assert AllOnCooldown(ix, dir[c], now) <==> AllOnCooldown(ix2, dir[c], now);
        assert ix2.scores[c] == ix.scores[c];
      }
    }
  }

  lemma SetCooldownAgrees(ix: Index, dir: seq<City>, key: Key, timeout: int, origin: string, nowMs: nat)
    requires ValidDirectory(dir) && ScoresAgree(ix, dir, nowMs / 1000)
    ensures ScoresAgree(SetCooldown(ix, dir, key, timeout, origin, nowMs), dir, nowMs / 1000)
  {
    var now := nowMs / 1000;
    var cooldown := if timeout <= 0 then ix.cooldown - {key} else ix.cooldown[key := now + timeout];
    var ix1 := ix.(cooldown := cooldown);
    RescoreAgrees(ix, ix1, dir, key, origin, now);
    var ix2 := Rescore(ix1, dir, key, origin, now);
    SameCooldowns(ix2, SetCooldown(ix, dir, key, timeout, origin, nowMs), dir, now);
  }

  lemma SameCooldowns(ix: Index, ix': Index, dir: seq<City>, now: int)
    requires ScoresAgree(ix, dir, now) && ix'.cooldown == ix.cooldown && ix'.scores == ix.scores
    ensures ScoresAgree(ix', dir, now)
  {
    forall c | 0 <= c < |dir|
      ensures AllRecorded(ix', dir[c]) <==> AllRecorded(ix, dir[c])
      ensures AllOnCooldown(ix', dir[c], now) <==> AllOnCooldown(ix, dir[c], now)
    {
    }
  }

  lemma SetLatencyAgrees(ix: Index, dir: seq<City>, key: Key, msec: nat, origin: string, nowMs: nat)
    requires ValidDirectory(dir) && ScoresAgree(ix, dir, nowMs / 1000)
    ensures ScoresAgree(SetLatency(ix, dir, key, msec, origin, nowMs), dir, nowMs / 1000)
  {
    var was := if key in ix.latency then ix.latency[key] else 0;
    var ix1 := ix.(sum := ix.sum - was + msec, latency := ix.latency[key := msec]);
    RescoreAgrees(ix, ix1, dir, key, origin, nowMs / 1000);
  }

  lemma {:induction false} CoolAllMeaning(cooldown: map<Key, int>, servers: seq<Key>, expire: int, key: Key)
    ensures var r := CoolAll(cooldown, servers, expire);
            if key in servers then key in r && r[key] == expire
            else (key in r <==> key in cooldown) && (key in cooldown ==> r[key] == cooldown[key])
    decreases |servers|
  {
    if servers != [] {
      CoolAllMeaning(cooldown, servers[..|servers| - 1], expire, key);
      assert servers == servers[..|servers| - 1] + [servers[|servers| - 1]];
    }
  }

  lemma SetCityCooldownAgrees(ix: Index, dir: seq<City>, country: string, code: string, timeout: int, nowMs: nat)
    requires ValidDirectory(dir) && ScoresAgree(ix, dir, nowMs / 1000)
    ensures ScoresAgree(SetCityCooldown(ix, dir, country, code, timeout, nowMs), dir, nowMs / 1000)
  {
    var now := nowMs / 1000;
    var r := FindCity(dir, country, code);
    if r.Some? {
      var ix' := SetCityCooldown(ix, dir, country, code, timeout, nowMs);
      forall c | 0 <= c < |dir| && dir[c].servers != []
        ensures ix'.scores[c] == UNAVAILABLE ==> AllRecorded(ix', dir[c])
        ensures AllOnCooldown(ix', dir[c], now) ==> ix'.scores[c] == UNAVAILABLE
      {
        forall k ensures if k in dir[r.value].servers then k in ix'.cooldown
                         else (k in ix'.cooldown <==> k in ix.cooldown)
                              && (k in ix.cooldown ==> ix'.cooldown[k] == ix.cooldown[k]) {
          CoolAllMeaning(ix.cooldown, dir[r.value].servers, now + timeout, k);
        }
        if c != r.value {
          assert forall k <- dir[c].servers :: k !in dir[r.value].servers;
          assert AllRecorded(ix, dir[c]) <==> AllRecorded(ix', dir[c]);
          assert AllOnCooldown(ix, dir[c], now) <==> AllOnCooldown(ix', dir[c], now);
        }
      }
    }
  }

  /** Right after the timer, every city with servers is scored unavailable exactly when all of them have an
      unexpired cooldown. */
  lemma ClearedIsExact(ix: Index, ix': Index, dir: seq<City>, origin: string, nowMs: nat)
    requires ValidDirectory(dir) && ScoresAgree(ix, dir, nowMs / 1000) && Cleared(ix, ix', dir, origin, nowMs)
    ensures ScoresAgree(ix', dir, nowMs / 1000)
    ensures forall c :: 0 <= c < |dir| && dir[c].servers != [] ==>
              (ix'.scores[c] == UNAVAILABLE <==> AllOnCooldown(ix', dir[c], nowMs / 1000))
  {
    var now := nowMs / 1000;
    forall c | 0 <= c < |dir| && dir[c].servers != []
      ensures ix'.scores[c] == UNAVAILABLE <==> AllOnCooldown(ix', dir[c], now)
      ensures AllOnCooldown(ix', dir[c], now) ==> AllRecorded(ix', dir[c])
    {
      if exists k <- dir[c].servers :: k in ix.cooldown && ix.cooldown[k] <= now {
        ScoreMeaning(dir[c], ix', origin, now);
      } else {
        assert AllRecorded(ix, dir[c]) ==> AllOnCooldown(ix', dir[c], now);
        assert AllOnCooldown(ix', dir[c], now) ==> AllOnCooldown(ix, dir[c], now);
      }
    }
  }

  // ---- the timer ----

  /** A due timer event is delivered before the next call. */
  predicate NotDue(ix: Index, nowMs: int) { ix.timer.Some? ==> nowMs < ix.timer.value }

  lemma RescheduleCovers(timer: Option<int>, timeout: int, nowMs: nat, expiry: int)
    requires timeout >= 0 && (timer.Some? ==> nowMs < timer.value)
    ensures var t := Reschedule(timer, timeout, nowMs);
            && t.Some?
            && (timer.Some? && timer.value <= expiry ==> t.value <= expiry)
            && (timeout >= 1 ==> t.value <= 1000 * (nowMs / 1000 + timeout))
  {
  }

  /** Setting or lifting one cooldown keeps the timer early enough exactly unless the timeout is negative while
      cooldowns remain: then the timer is disarmed. */
  lemma SetCooldownCovers(ix: Index, dir: seq<City>, key: Key, timeout: int, origin: string, nowMs: nat)
    requires |ix.scores| == |dir| && TimerCovers(ix) && NotDue(ix, nowMs)
    ensures var ix' := SetCooldown(ix, dir, key, timeout, origin, nowMs);
            TimerCovers(ix') <==> timeout >= 0 || ix.cooldown.Keys <= {key}
  {
    var ix' := SetCooldown(ix, dir, key, timeout, origin, nowMs);
    if timeout >= 0 {
      forall k | k in ix'.cooldown ensures ix'.timer.Some? && ix'.timer.value <= 1000 * ix'.cooldown[k] {
        RescheduleCovers(ix.timer, timeout, nowMs,
                         if k in ix.cooldown then 1000 * ix.cooldown[k] else 0);
      }
    } else {
      assert ix'.timer == None;
      assert ix'.cooldown.Keys == ix.cooldown.Keys - {key};
      assert ix'.cooldown == map[] <==> ix'.cooldown.Keys == {};
    }
  }

  lemma SetCityCooldownCovers(ix: Index, dir: seq<City>, country: string, code: string, timeout: int, nowMs: nat)
    requires |ix.scores| == |dir| && TimerCovers(ix) && NotDue(ix, nowMs) && timeout >= 1
    ensures TimerCovers(SetCityCooldown(ix, dir, country, code, timeout, nowMs))
  {
    var r := FindCity(dir, country, code);
    if r.Some? {
      var ix' := SetCityCooldown(ix, dir, country, code, timeout, nowMs);
      forall k | k in ix'.cooldown ensures ix'.timer.Some? && ix'.timer.value <= 1000 * ix'.cooldown[k] {
        CoolAllMeaning(ix.cooldown, dir[r.value].servers, nowMs / 1000 + timeout, k);
        RescheduleCovers(ix.timer, timeout, nowMs,
                         if k in ix.cooldown then 1000 * ix.cooldown[k] else 0);
      }
    }
  }

  lemma ClearedCovers(ix: Index, ix': Index, dir: seq<City>, origin: string, nowMs: nat)
    requires Cleared(ix, ix', dir, origin, nowMs)
    ensures TimerCovers(ix')
  {
    var now := nowMs / 1000;
    if ix'.cooldown != map[] {
      var t :| IsEarliest(ix'.cooldown, t) && ix'.timer == Some(nowMs + t - now);
      assert t > now;
    }
  }

  // ---- the latency sum ----

  ghost function SumValues(m: map<Key, nat>): nat
    decreases |m|
  {
    if m == map[] then 0 else var k :| k in m; m[k] + SumValues(m - {k})
  }

  lemma {:induction false} SumSplit(m: map<Key, nat>, k: Key)
    requires k in m
    ensures SumValues(m) == m[k] + SumValues(m - {k})
    decreases |m|
  {
    var x :| x in m && SumValues(m) == m[x] + SumValues(m - {x});
    if x != k {
      SumSplit(m - {x}, k);
      SumSplit(m - {k}, x);
      assert m - {x} - {k} == m - {k} - {x};
    }
  }

  /** The running sum stays the sum of the recorded latencies. */
  lemma SetLatencySum(ix: Index, dir: seq<City>, key: Key, msec: nat, origin: string, nowMs: nat)
    requires |ix.scores| == |dir| && ix.sum == SumValues(ix.latency)
    ensures var ix' := SetLatency(ix, dir, key, msec, origin, nowMs);
            ix'.sum == SumValues(ix'.latency) && ix'.latency == ix.latency[key := msec]
  {
    var m := ix.latency[key := msec];
    SumSplit(m, key);
    assert m - {key} == ix.latency - {key};
    if key in ix.latency {
      SumSplit(ix.latency, key);
    } else {
      assert ix.latency - {key} == ix.latency;
    }
  }

  /** The average is the mean latency rounded up. */
  lemma CeilDivMeaning(sum: nat, n: nat)
    requires n > 0
    ensures n * (CeilDiv(sum, n) - 1) < sum <= n * CeilDiv(sum, n)
  {
    var q := (sum + n - 1) / n;
    assert sum + n - 1 == q * n + (sum + n - 1) % n;
  }

  // ---- runs ----

  datatype Event = Event(op: Op, origin: string, nowMs: nat)

  datatype Op =
    | Latency(key: Key, msec: nat)
    | Cooldown(key: Key, timeout: int)
    | CityCooldown(country: string, code: string, timeout: int)
    | TimerFires

  /** One event; the timer fires when it is due, and before any other call. */
  ghost predicate Next(ix: Index, ix': Index, dir: seq<City>, e: Event)
  {
    && |ix.scores| == |dir|
    && match e.op
       case Latency(key, msec) => NotDue(ix, e.nowMs) && ix' == SetLatency(ix, dir, key, msec, e.origin, e.nowMs)
       case Cooldown(key, timeout) =>
         NotDue(ix, e.nowMs) && ix' == SetCooldown(ix, dir, key, timeout, e.origin, e.nowMs)
       case CityCooldown(country, code, timeout) =>
         NotDue(ix, e.nowMs) && ix' == SetCityCooldown(ix, dir, country, code, timeout, e.nowMs)
       case TimerFires => ix.timer.Some? && Cleared(ix, ix', dir, e.origin, e.nowMs)
  }

  ghost predicate StepAt(dir: seq<City>, xs: seq<Index>, es: seq<Event>, i: nat)
    requires i < |es| && |xs| == |es| + 1
  {
    Next(xs[i], xs[i + 1], dir, es[i])
  }

  ghost predicate IsRun(dir: seq<City>, xs: seq<Index>, es: seq<Event>)
  {
    && ValidDirectory(dir)
    && |xs| == |es| + 1
    && xs[0] == Index(map[], 0, map[], seq(|dir|, i => NO_DATA), None)
    && (forall i :: 0 <= i < |es| ==> StepAt(dir, xs, es, i))
    && (forall i, j :: 0 <= i < j < |es| ==> es[i].nowMs <= es[j].nowMs)
  }

  lemma Later(ix: Index, dir: seq<City>, now: int, later: int)
    requires ScoresAgree(ix, dir, now) && now <= later
    ensures ScoresAgree(ix, dir, later)
  {
    forall c | 0 <= c < |dir| ensures AllOnCooldown(ix, dir[c], later) ==> AllOnCooldown(ix, dir[c], now) {
    }
  }

  lemma NextAgrees(ix: Index, ix': Index, dir: seq<City>, e: Event)
    requires ValidDirectory(dir) && ScoresAgree(ix, dir, e.nowMs / 1000) && Next(ix, ix', dir, e)
    requires ix.sum == SumValues(ix.latency)
    ensures ScoresAgree(ix', dir, e.nowMs / 1000) && ix'.sum == SumValues(ix'.latency)
  {
    match e.op
    case Latency(key, msec) =>
      SetLatencyAgrees(ix, dir, key, msec, e.origin, e.nowMs);
      SetLatencySum(ix, dir, key, msec, e.origin, e.nowMs);
    case Cooldown(key, timeout) => SetCooldownAgrees(ix, dir, key, timeout, e.origin, e.nowMs);
    case CityCooldown(country, code, timeout) => SetCityCooldownAgrees(ix, dir, country, code, timeout, e.nowMs);
    case TimerFires => ClearedIsExact(ix, ix', dir, e.origin, e.nowMs);
  }

  lemma InitialAgrees(ix: Index, dir: seq<City>)
    requires ix == Index(map[], 0, map[], seq(|dir|, i => NO_DATA), None)
    ensures ScoresAgree(ix, dir, 0) && ix.sum == SumValues(ix.latency)
  {
    assert forall c :: 0 <= c < |dir| && dir[c].servers != [] ==> dir[c].servers[0] in dir[c].servers;
  }

  /** The time, in seconds, of the last of the first `n` events. */
  function Clock(es: seq<Event>, n: nat): nat
    requires n <= |es|
  {
    if n == 0 then 0 else es[n - 1].nowMs / 1000
  }

  lemma RunStep(dir: seq<City>, xs: seq<Index>, es: seq<Event>, n: nat)
    requires IsRun(dir, xs, es) && n < |es|
    ensures Next(xs[n], xs[n + 1], dir, es[n]) && Clock(es, n) <= es[n].nowMs / 1000
  {
    assert StepAt(dir, xs, es, n);
  }

  lemma RunStepAgrees(dir: seq<City>, xs: seq<Index>, es: seq<Event>, n: nat)
    requires IsRun(dir, xs, es) && n < |es|
    requires ScoresAgree(xs[n], dir, Clock(es, n)) && xs[n].sum == SumValues(xs[n].latency)
    ensures ScoresAgree(xs[n + 1], dir, Clock(es, n + 1)) && xs[n + 1].sum == SumValues(xs[n + 1].latency)
  {
    RunStep(dir, xs, es, n);
    Later(xs[n], dir, Clock(es, n), es[n].nowMs / 1000);
    NextAgrees(xs[n], xs[n + 1], dir, es[n]);
  }

  /** Scores agree with the recorded cooldowns, and the latency sum with the latencies, for any interleaving. */
  lemma {:induction false} RunAgrees(dir: seq<City>, xs: seq<Index>, es: seq<Event>, n: nat)
    requires IsRun(dir, xs, es) && n < |xs|
    ensures ScoresAgree(xs[n], dir, Clock(es, n))
    ensures xs[n].sum == SumValues(xs[n].latency)
  {
    if n == 0 {
      InitialAgrees(xs[0], dir);
    } else {
      RunAgrees(dir, xs, es, n - 1);
      RunStepAgrees(dir, xs, es, n - 1);
    }
  }

  /** Right after the timer has fired, in any run: unavailable exactly when every server is on cooldown. */
  lemma ExactAfterTimer(dir: seq<City>, xs: seq<Index>, es: seq<Event>, n: nat, c: nat)
    requires IsRun(dir, xs, es) && n < |es| && es[n].op.TimerFires?
    requires c < |dir| && dir[c].servers != []
    ensures |xs[n + 1].scores| == |dir|
    ensures xs[n + 1].scores[c] == UNAVAILABLE
       <==> forall k <- dir[c].servers :: OnCooldown(xs[n + 1].cooldown, k, es[n].nowMs / 1000)
  {
    RunAgrees(dir, xs, es, n);
    RunStep(dir, xs, es, n);
    Later(xs[n], dir, Clock(es, n), es[n].nowMs / 1000);
    ClearedIsExact(xs[n], xs[n + 1], dir, es[n].origin, es[n].nowMs);
  }

  predicate SaneTimeout(op: Op)
  {
    match op
    case Cooldown(_, timeout) => timeout >= 0
    case CityCooldown(_, _, timeout) => timeout >= 1
    case _ => true
  }

  lemma NextCovers(ix: Index, ix': Index, dir: seq<City>, e: Event)
    requires ValidDirectory(dir) && TimerCovers(ix) && Next(ix, ix', dir, e) && SaneTimeout(e.op)
    ensures TimerCovers(ix')
  {
    match e.op
    case Latency(_, _) =>
    case Cooldown(key, timeout) => SetCooldownCovers(ix, dir, key, timeout, e.origin, e.nowMs);
    case CityCooldown(country, code, timeout) => SetCityCooldownCovers(ix, dir, country, code, timeout, e.nowMs);
    case TimerFires => ClearedCovers(ix, ix', dir, e.origin, e.nowMs);
  }

  lemma {:induction false} RunTimerCovers(dir: seq<City>, xs: seq<Index>, es: seq<Event>, n: nat)
    requires IsRun(dir, xs, es) && n < |xs|
    requires forall i :: 0 <= i < n ==> SaneTimeout(es[i].op)
    ensures TimerCovers(xs[n])
  {
    if n > 0 {
      RunTimerCovers(dir, xs, es, n - 1);
      RunStep(dir, xs, es, n - 1);
      NextCovers(xs[n - 1], xs[n], dir, es[n - 1]);
    }
  }
}
