/** One latency refresh: which pings are queued, in flight and sent, as functions on values. */
module LatencySpec {
  type Key = string

  const TIMEOUT := 5000
  const MAX_PARALLEL := 8
  const MAX_RETRIES := 2
  /** Sequence numbers on the wire are 16 bits wide. */
  const WIRE := 65536

  /** A server to be pinged; once sent, `id` counts the pings sent before it in this refresh. */
  datatype Ping = Ping(key: Key, distance: real, timestamp: nat, id: nat, retries: nat)

  /** `log` holds the server of every ping sent, in order. */
  datatype Refresh = Refresh(queue: seq<Ping>, flying: seq<Ping>, log: seq<Key>)

  predicate Expired(p: Ping, now: nat) { p.timestamp + TIMEOUT <= now }

  // ---- timeouts ----

  /** How many records at the head of the list have timed out. */
  function LeadingExpired(ps: seq<Ping>, now: nat): (n: nat)
    ensures n <= |ps|
    ensures forall i :: 0 <= i < n ==> Expired(ps[i], now)
    ensures n < |ps| ==> !Expired(ps[n], now)
  {
    if ps == [] || !Expired(ps[0], now) then 0 else 1 + LeadingExpired(ps[1..], now)
  }

  function RemoveAt(ps: seq<Ping>, i: nat): seq<Ping>
    requires i < |ps|
  {
    ps[..i] + ps[i + 1..]
  }

  /** The record at the head is sent again, at the end of the list, or given up after its last retry. */
  function TimeoutOne(r: Refresh, now: nat): Refresh
    requires r.flying != []
  {
    var head, rest := r.flying[0], RemoveAt(r.flying, 0);
    if head.retries < MAX_RETRIES then
      var again := head.(retries := head.retries + 1, id := |r.log|, timestamp := now);
      Refresh(r.queue, rest + [again], r.log + [head.key])
    else Refresh(r.queue, rest, r.log)
  }

  lemma {:induction false} LeadingExpiredAppend(ps: seq<Ping>, p: Ping, now: nat)
    requires !Expired(p, now)
    ensures LeadingExpired(ps + [p], now) == LeadingExpired(ps, now)
    decreases |ps|
  {
    if ps != [] && Expired(ps[0], now) {
      assert (ps + [p])[1..] == ps[1..] + [p];
      LeadingExpiredAppend(ps[1..], p, now);
    }
  }

  lemma TimeoutOneProgress(r: Refresh, now: nat)
    requires r.flying != [] && Expired(r.flying[0], now)
    ensures LeadingExpired(TimeoutOne(r, now).flying, now) == LeadingExpired(r.flying, now) - 1
  {
    var head, rest := r.flying[0], r.flying[1..];
    assert RemoveAt(r.flying, 0) == rest;
    if head.retries < MAX_RETRIES {
      var again := head.(retries := head.retries + 1, id := |r.log|, timestamp := now);
      assert TimeoutOne(r, now).flying == rest + [again];
      LeadingExpiredAppend(rest, again, now);
    } else {
      assert TimeoutOne(r, now).flying == rest;
    }
  }

  /** Work off timed-out records from the head until one has not timed out. */
  function ScanTimeouts(r: Refresh, now: nat): Refresh
    decreases LeadingExpired(r.flying, now)
  {
    if r.flying == [] || !Expired(r.flying[0], now) then r
    else
      TimeoutOneProgress(r, now);
      ScanTimeouts(TimeoutOne(r, now), now)
  }

  // ---- new pings ----

  function LaunchOne(r: Refresh, now: nat): Refresh
    requires r.queue != []
  {
    var p := r.queue[0].(id := |r.log|, timestamp := now, retries := 0);
    Refresh(r.queue[1..], r.flying + [p], r.log + [p.key])
  }

  function Fill(r: Refresh, now: nat): Refresh
    decreases |r.queue|
  {
    if |r.flying| >= MAX_PARALLEL || r.queue == [] then r else Fill(LaunchOne(r, now), now)
  }

  function MaybeSend(r: Refresh, now: nat): Refresh
  {
    Fill(ScanTimeouts(r, now), now)
  }

  // ---- replies ----

  function FindWire(ps: seq<Ping>, wire: nat): (i: nat)
    ensures i <= |ps|
    ensures i < |ps| ==> ps[i].id % WIRE == wire
    ensures forall j :: 0 <= j < i ==> ps[j].id % WIRE != wire
  {
    if ps == [] || ps[0].id % WIRE == wire then 0 else 1 + FindWire(ps[1..], wire)
  }

  function Reply(r: Refresh, wire: nat, now: nat): Refresh
  {
    var i := FindWire(r.flying, wire);
    if i == |r.flying| then r
    else MaybeSend(r.(flying := RemoveAt(r.flying, i)), now)
  }

  // ---- the send queue ----

  datatype City = City(distance: real, servers: seq<Key>)

  function InsertionPoint(q: seq<Ping>, distance: real): (i: nat)
    ensures i <= |q|
    ensures forall j :: 0 <= j < i ==> q[j].distance < distance
    ensures i < |q| ==> q[i].distance >= distance
  {
    if q == [] || q[0].distance >= distance then 0 else 1 + InsertionPoint(q[1..], distance)
  }

  /** Each server goes in front of the one before it. */
  function CityRecords(servers: seq<Key>, distance: real): seq<Ping>
  {
    if servers == [] then []
    else [Ping(servers[|servers| - 1], distance, 0, 0, 0)] + CityRecords(servers[..|servers| - 1], distance)
  }

  function AddCity(q: seq<Ping>, c: City): seq<Ping>
  {
    var i := InsertionPoint(q, c.distance);
    q[..i] + CityRecords(c.servers, c.distance) + q[i..]
  }

  function BuildQueue(cities: seq<City>): seq<Ping>
  {
    if cities == [] then [] else AddCity(BuildQueue(cities[..|cities| - 1]), cities[|cities| - 1])
  }

  function AllServers(cities: seq<City>): seq<Key>
  {
    if cities == [] then [] else AllServers(cities[..|cities| - 1]) + cities[|cities| - 1].servers
  }
}
