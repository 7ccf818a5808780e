/** A whole latency refresh: from the distance-sorted queue to the last ping answered or given up. */
module LatencyRuns {
  import opened LatencySpec
  import opened LatencyProofs

  // ---- the send queue ----

  ghost predicate SortedByDistance(q: seq<Ping>)
  {
    forall i, j :: 0 <= i < j < |q| ==> q[i].distance <= q[j].distance
  }

  lemma {:induction false} CityRecordsAre(servers: seq<Key>, distance: real)
    ensures forall p <- CityRecords(servers, distance) :: p.distance == distance && p.retries == 0
    ensures |CityRecords(servers, distance)| == |servers|
    decreases |servers|
  {
    if servers != [] {
      CityRecordsAre(servers[..|servers| - 1], distance);
    }
  }

  lemma {:induction false} QueuedAppend(a: seq<Ping>, b: seq<Ping>, sel: Selector)
    ensures Queued(a + b, sel) == Queued(a, sel) + Queued(b, sel)
    decreases |b|
  {
    if b == [] {
      assert a + b == a;
    } else {
      QueuedAppend(a, b[..|b| - 1], sel);
      assert (a + b)[..|a + b| - 1] == a + b[..|b| - 1];
    }
  }

  lemma {:induction false} CityRecordsCount(servers: seq<Key>, distance: real, sel: Selector)
    ensures Queued(CityRecords(servers, distance), sel) == Count(servers, sel)
    decreases |servers|
  {
    if servers != [] {
      var p := Ping(servers[|servers| - 1], distance, 0, 0, 0);
      var rest := CityRecords(servers[..|servers| - 1], distance);
      CityRecordsCount(servers[..|servers| - 1], distance, sel);
      QueuedAppend([p], rest, sel);
      assert [p][..0] == [];
      assert Queued([p], sel) == Hit(sel, p.key, 1);
    }
  }

  lemma {:induction false} CountAppend(a: seq<Key>, b: seq<Key>, sel: Selector)
    ensures Count(a + b, sel) == Count(a, sel) + Count(b, sel)
    decreases |b|
  {
    if b == [] {
      assert a + b == a;
    } else {
      CountAppend(a, b[..|b| - 1], sel);
      assert (a + b)[..|a + b| - 1] == a + b[..|b| - 1];
    }
  }

  lemma AddCityCount(q: seq<Ping>, c: City, sel: Selector)
    ensures Queued(AddCity(q, c), sel) == Queued(q, sel) + Count(c.servers, sel)
  {
    var i, mid := InsertionPoint(q, c.distance), CityRecords(c.servers, c.distance);
    CityRecordsCount(c.servers, c.distance, sel);
    QueuedAppend(q[..i], mid, sel);
    QueuedAppend(q[..i] + mid, q[i..], sel);
    QueuedAppend(q[..i], q[i..], sel);
    assert q[..i] + q[i..] == q;
  }

  lemma AddCitySorted(q: seq<Ping>, c: City)
    requires SortedByDistance(q)
    ensures SortedByDistance(AddCity(q, c))
  {
    var i, mid := InsertionPoint(q, c.distance), CityRecords(c.servers, c.distance);
    CityRecordsAre(c.servers, c.distance);
    assert forall j :: 0 <= j < |mid| ==> mid[j] in mid;
    ConcatSorted(q[..i], mid, c.distance);
    SortedTail(q, i, c.distance);
    ConcatSorted(q[..i] + mid, q[i..], c.distance);
  }

  lemma SortedTail(q: seq<Ping>, i: nat, distance: real)
    requires SortedByDistance(q) && i <= |q| && (i < |q| ==> q[i].distance >= distance)
    ensures SortedByDistance(q[i..]) && forall j :: 0 <= j < |q[i..]| ==> q[i..][j].distance >= distance
  {
  }

  lemma ConcatSorted(a: seq<Ping>, b: seq<Ping>, distance: real)
    requires SortedByDistance(a) && SortedByDistance(b)
    requires forall j :: 0 <= j < |a| ==> a[j].distance <= distance
    requires forall j :: 0 <= j < |b| ==> b[j].distance >= distance
    ensures SortedByDistance(a + b)
  {
  }

  /** A city's servers go in together, the last one first, in front of the first entry at least as far away. */
  lemma {:induction false} CityRecordsReversed(servers: seq<Key>, distance: real, j: nat)
    requires j < |servers|
    ensures j < |CityRecords(servers, distance)|
    ensures CityRecords(servers, distance)[j] == Ping(servers[|servers| - 1 - j], distance, 0, 0, 0)
    decreases |servers|
  {
    if j > 0 {
      CityRecordsReversed(servers[..|servers| - 1], distance, j - 1);
    }
  }

  lemma AddCityExactly(q: seq<Ping>, c: City) returns (i: nat, mid: seq<Ping>)
    ensures i <= |q| && (forall j :: 0 <= j < i ==> q[j].distance < c.distance)
    ensures i < |q| ==> q[i].distance >= c.distance
    ensures AddCity(q, c) == q[..i] + mid + q[i..] && |mid| == |c.servers|
    ensures forall j :: 0 <= j < |mid| ==> mid[j] == Ping(c.servers[|mid| - 1 - j], c.distance, 0, 0, 0)
  {
    i, mid := InsertionPoint(q, c.distance), CityRecords(c.servers, c.distance);
    CityRecordsAre(c.servers, c.distance);
    forall j | 0 <= j < |mid| ensures mid[j] == Ping(c.servers[|mid| - 1 - j], c.distance, 0, 0, 0) {
      CityRecordsReversed(c.servers, c.distance, j);
    }
  }

  /** The queue holds every server of every city, closest first. */
  lemma {:induction false} QueueIsSortedServers(cities: seq<City>, sel: Selector)
    ensures SortedByDistance(BuildQueue(cities))
    ensures Queued(BuildQueue(cities), sel) == Count(AllServers(cities), sel)
    decreases |cities|
  {
    if cities != [] {
      var front, last := cities[..|cities| - 1], cities[|cities| - 1];
      QueueIsSortedServers(front, sel);
      AddCitySorted(BuildQueue(front), last);
      AddCityCount(BuildQueue(front), last, sel);
      CountAppend(AllServers(front), last.servers, sel);
    }
  }

  // ---- runs ----

  datatype Event = Timer(now: nat) | Replied(wire: nat, now: nat)

  function Step(r: Refresh, e: Event): Refresh
  {
    match e
    case Timer(now) => MaybeSend(r, now)
    case Replied(wire, now) => Reply(r, wire, now)
  }

  ghost predicate StepAt(rs: seq<Refresh>, es: seq<Event>, i: nat)
    requires i < |es| && |rs| == |es| + 1
  {
    rs[i + 1] == Step(rs[i], es[i])
  }

  /** A refresh of `cities` started at `start`, then timer and reply events on a clock that never runs back. */
  ghost predicate IsRun(cities: seq<City>, start: nat, rs: seq<Refresh>, es: seq<Event>)
  {
    && |rs| == |es| + 1
    && rs[0] == MaybeSend(Refresh(BuildQueue(cities), [], []), start)
    && (forall i :: 0 <= i < |es| ==> StepAt(rs, es, i))
    && (forall i :: 0 <= i < |es| ==> start <= es[i].now)
    && (forall i, j :: 0 <= i < j < |es| ==> es[i].now <= es[j].now)
  }

  function Clock(start: nat, es: seq<Event>, n: nat): nat
    requires n <= |es|
  {
    if n == 0 then start else es[n - 1].now
  }

  lemma QueuedAll(ps: seq<Ping>)
    ensures Queued(ps, All) == |ps|
    decreases |ps|
  {
    if ps != [] {
      QueuedAll(ps[..|ps| - 1]);
    }
  }

  lemma StartInv(cities: seq<City>, start: nat)
    ensures var r, servers := Refresh(BuildQueue(cities), [], []), AllServers(cities);
            Inv(r, servers, start) && Potential(r) == 4 * |servers| && |r.queue| == |servers|
  {
    var r, servers := Refresh(BuildQueue(cities), [], []), AllServers(cities);
    forall sel ensures Charge(r, sel) <= 3 * Count(servers, sel) {
      QueueIsSortedServers(cities, sel);
    }
    QueueIsSortedServers(cities, All);
    CountAll(servers);
    QueuedAll(r.queue);
  }

  /** The timer finds its record timed out, or a reply matches. */
  predicate Effective(r: Refresh, e: Event)
  {
    match e
    case Timer(now) => r.flying != [] && Expired(r.flying[0], now)
    case Replied(wire, _) => FindWire(r.flying, wire) < |r.flying|
  }

  /** The invariant between calls; nothing is left queued once nothing is in flight. */
  ghost predicate Good(r: Refresh, servers: seq<Key>, now: nat)
  {
    Inv(r, servers, now) && (r.flying == [] ==> r.queue == [])
  }

  /** An event adds no work, and does some if it is effective. */
  predicate Lowers(r: Refresh, e: Event, r': Refresh)
  {
    && Potential(r') <= Potential(r) && Remaining(r') <= Remaining(r)
    && (Effective(r, e) ==> Potential(r') < Potential(r))
  }

  lemma LaterGood(r: Refresh, servers: seq<Key>, now: nat, later: nat)
    requires Good(r, servers, now) && now <= later
    ensures Good(r, servers, later)
  {
  }

  lemma FirstCall(cities: seq<City>, start: nat)
    ensures var r, servers := MaybeSend(Refresh(BuildQueue(cities), [], []), start), AllServers(cities);
            Good(r, servers, start) && Potential(r) <= 4 * |servers|
  {
    StartInv(cities, start);
    MaybeSendKeeps(Refresh(BuildQueue(cities), [], []), AllServers(cities), start);
  }

  lemma RunStep(cities: seq<City>, start: nat, rs: seq<Refresh>, es: seq<Event>, n: nat)
    requires IsRun(cities, start, rs, es) && n < |es|
    requires Good(rs[n], AllServers(cities), Clock(start, es, n))
    ensures Good(rs[n + 1], AllServers(cities), Clock(start, es, n + 1)) && Lowers(rs[n], es[n], rs[n + 1])
  {
    assert StepAt(rs, es, n);
    LaterGood(rs[n], AllServers(cities), Clock(start, es, n), es[n].now);
    StepKeeps(rs[n], AllServers(cities), es[n]);
  }

  /** One event keeps the invariant, adds no work, and does some if it is effective. */
  lemma StepKeeps(r: Refresh, servers: seq<Key>, e: Event)
    requires Good(r, servers, e.now)
    ensures Good(Step(r, e), servers, e.now) && Lowers(r, e, Step(r, e))
  {
    match e
    case Timer(now) => MaybeSendKeeps(r, servers, now);
    case Replied(wire, now) =>
      ReplyKeeps(r, servers, wire, now);
      var i := FindWire(r.flying, wire);
      if i < |r.flying| {
        RemoveKeeps(r, i, servers, now);
        MaybeSendKeeps(r.(flying := RemoveAt(r.flying, i)), servers, now);
      }
  }

  /** The bounded window, the order by send time and the per-server budget hold in every run; the work left and the
      servers left never grow. */
  lemma {:induction false} RunInv(cities: seq<City>, start: nat, rs: seq<Refresh>, es: seq<Event>, n: nat)
    requires IsRun(cities, start, rs, es) && n <= |es|
    ensures Good(rs[n], AllServers(cities), Clock(start, es, n))
    ensures Potential(rs[n]) <= 4 * |AllServers(cities)|
    ensures n > 0 ==> Lowers(rs[n - 1], es[n - 1], rs[n])
  {
    if n == 0 {
      FirstCall(cities, start);
    } else {
      RunInv(cities, start, rs, es, n - 1);
      RunStep(cities, start, rs, es, n - 1);
    }
  }

  /** Each server is sent at most three pings for each time it is listed. */
  lemma AtMostThreePings(cities: seq<City>, start: nat, rs: seq<Refresh>, es: seq<Event>, n: nat, key: Key)
    requires IsRun(cities, start, rs, es) && n <= |es|
    ensures Count(rs[n].log, One(key)) <= 3 * Count(AllServers(cities), One(key))
    ensures |rs[n].log| <= 3 * |AllServers(cities)|
  {
    RunInv(cities, start, rs, es, n);
    forall sel ensures Count(rs[n].log, sel) <= 3 * Count(AllServers(cities), sel) {
      assert Charge(rs[n], sel) <= 3 * Count(AllServers(cities), sel);
      OwedBounds(rs[n].flying, sel);
      QueuedNonNegative(rs[n].queue, sel);
    }
    CountAll(rs[n].log);
    CountAll(AllServers(cities));
  }

  lemma QueuedNonNegative(ps: seq<Ping>, sel: Selector)
    ensures Queued(ps, sel) >= 0
    decreases |ps|
  {
    if ps != [] {
      QueuedNonNegative(ps[..|ps| - 1], sel);
    }
  }

  lemma UnwrappedFound(ps: seq<Ping>, i: nat)
    requires i < |ps| && forall p <- ps :: p.id < WIRE
    requires forall j, k :: 0 <= j < k < |ps| ==> ps[j].id < ps[k].id
    ensures FindWire(ps, ps[i].id % WIRE) == i
  {
    assert forall p <- ps :: p.id % WIRE == p.id;
    var f := FindWire(ps, ps[i].id % WIRE);
    assert ps[i] in ps && (f < |ps| ==> ps[f] in ps);
  }

  /** With at most 21845 servers, sequence numbers in flight are distinct on the wire, so a reply is matched with the
      ping it answers. */
  lemma RepliesMatch(cities: seq<City>, start: nat, rs: seq<Refresh>, es: seq<Event>, n: nat, i: nat)
    requires IsRun(cities, start, rs, es) && n <= |es| && i < |rs[n].flying|
    requires 3 * |AllServers(cities)| <= WIRE
    ensures FindWire(rs[n].flying, rs[n].flying[i].id % WIRE) == i
  {
    RunInv(cities, start, rs, es, n);
    AtMostThreePings(cities, start, rs, es, n, "");
    var ps := rs[n].flying;
    assert forall p <- ps :: p.id < WIRE;
    UnwrappedFound(ps, i);
  }

  /** Finished share of the refresh. */
  function Progress(r: Refresh, total: nat): real
  {
    if total == 0 then 1.0 else 1.0 - Remaining(r) as real / total as real
  }

  lemma DivideMonotone(a: real, b: real, t: real)
    requires a <= b && t > 0.0
    ensures a / t <= b / t
  {
    var x, y := a / t, b / t;
    assert x * t == a && y * t == b;
  }

  lemma RatioBounds(a: nat, b: nat, total: nat)
    requires a <= b <= total && total > 0
    ensures 0.0 <= a as real / total as real <= b as real / total as real <= 1.0
  {
    DivideMonotone(0.0, a as real, total as real);
    DivideMonotone(a as real, b as real, total as real);
    DivideMonotone(b as real, total as real, total as real);
  }

  lemma ProgressGrows(cities: seq<City>, start: nat, rs: seq<Refresh>, es: seq<Event>, n: nat)
    requires IsRun(cities, start, rs, es) && n < |es|
    ensures var total := |AllServers(cities)|;
            0.0 <= Progress(rs[n], total) <= Progress(rs[n + 1], total) <= 1.0
  {
    RunInv(cities, start, rs, es, n);
    RunInv(cities, start, rs, es, n + 1);
    if |AllServers(cities)| > 0 {
      RatioBounds(Remaining(rs[n + 1]), Remaining(rs[n]), |AllServers(cities)|);
    }
  }

  /** Progress is the share of the servers that are neither queued nor in flight, and complete when none is. */
  lemma ProgressIsShare(r: Refresh, total: nat)
    requires 0 < total && |r.queue| + |r.flying| <= total
    ensures Progress(r, total) * total as real == (total - |r.queue| - |r.flying|) as real
    ensures Progress(r, total) == 1.0 <==> r.queue == [] && r.flying == []
  {
    var left := (|r.queue| + |r.flying|) as real;
    assert left / total as real * total as real == left;
  }

  function EffectiveEvents(rs: seq<Refresh>, es: seq<Event>, n: nat): nat
    requires |rs| == |es| + 1 && n <= |es|
  {
    if n == 0 then 0
    else EffectiveEvents(rs, es, n - 1) + if Effective(rs[n - 1], es[n - 1]) then 1 else 0
  }

  lemma NoWorkLeft(r: Refresh, servers: seq<Key>, now: nat)
    requires Good(r, servers, now)
    ensures Potential(r) >= 0 && (Potential(r) == 0 <==> r.flying == [])
  {
    OwedBounds(r.flying, All);
  }

  /** A refresh has at most four effective events for each server, and is over exactly when no work is left. */
  lemma {:induction false} RefreshEnds(cities: seq<City>, start: nat, rs: seq<Refresh>, es: seq<Event>, n: nat)
    requires IsRun(cities, start, rs, es) && n <= |es|
    ensures EffectiveEvents(rs, es, n) + Potential(rs[n]) <= 4 * |AllServers(cities)|
    ensures Potential(rs[n]) >= 0 && (Potential(rs[n]) == 0 <==> rs[n].flying == [])
    decreases n
  {
    RunInv(cities, start, rs, es, n);
    NoWorkLeft(rs[n], AllServers(cities), Clock(start, es, n));
    if n > 0 {
      RefreshEnds(cities, start, rs, es, n - 1);
      assert Lowers(rs[n - 1], es[n - 1], rs[n]);
    }
  }

  /** The event makes a call that scans the list: a timer event, or a reply that matches. */
  predicate Scans(r: Refresh, e: Event)
  {
    e.Timer? || FindWire(r.flying, e.wire) < |r.flying|
  }

  lemma ScanLeavesNothingOverdue(r: Refresh, servers: seq<Key>, e: Event)
    requires Inv(r, servers, e.now) && Scans(r, e)
    ensures forall p <- Step(r, e).flying :: !Expired(p, e.now)
  {
    match e
    case Timer(now) => MaybeSendKeeps(r, servers, now);
    case Replied(wire, now) =>
      var i := FindWire(r.flying, wire);
      RemoveKeeps(r, i, servers, now);
      MaybeSendKeeps(r.(flying := RemoveAt(r.flying, i)), servers, now);
  }

  /** Once a call has scanned the head of the list, nothing anywhere in flight has timed out. */
  lemma NothingOverdue(cities: seq<City>, start: nat, rs: seq<Refresh>, es: seq<Event>, n: nat)
    requires IsRun(cities, start, rs, es) && n < |es| && Scans(rs[n], es[n])
    ensures forall p <- rs[n + 1].flying :: !Expired(p, es[n].now)
    ensures |rs[n + 1].flying| <= MAX_PARALLEL
  {
    RunInv(cities, start, rs, es, n);
    RunInv(cities, start, rs, es, n + 1);
    assert StepAt(rs, es, n);
    LaterGood(rs[n], AllServers(cities), Clock(start, es, n), es[n].now);
    ScanLeavesNothingOverdue(rs[n], AllServers(cities), es[n]);
  }
}
