/** What holds throughout a latency refresh. */
module LatencyProofs {
  import opened LatencySpec

  /** Sent earlier, listed earlier; sent no later than now; retried at most twice. */
  ghost predicate Ordered(r: Refresh, now: nat)
  {
    && (forall i, j :: 0 <= i < j < |r.flying| ==>
          r.flying[i].timestamp <= r.flying[j].timestamp && r.flying[i].id < r.flying[j].id)
    && (forall p <- r.flying :: p.timestamp <= now && p.id < |r.log| && p.retries <= MAX_RETRIES)
  }

  // ---- counting pings, for one server or for all of them ----

  datatype Selector = All | One(key: Key)

  /** `x` if the selector covers the server, and nothing otherwise. */
  function Hit(sel: Selector, key: Key, x: int): int { if sel == All || sel == One(key) then x else 0 }

  function Count(keys: seq<Key>, sel: Selector): int
  {
    if keys == [] then 0 else Count(keys[..|keys| - 1], sel) + Hit(sel, keys[|keys| - 1], 1)
  }

  /** Pings the records may still cause: all three for a queued server, the retries left for one in flight. */
  function Owed(ps: seq<Ping>, sel: Selector): int
  {
    if ps == [] then 0
    else Owed(ps[..|ps| - 1], sel) + Hit(sel, ps[|ps| - 1].key, MAX_RETRIES - ps[|ps| - 1].retries)
  }

  function Queued(ps: seq<Ping>, sel: Selector): int
  {
    if ps == [] then 0 else Queued(ps[..|ps| - 1], sel) + Hit(sel, ps[|ps| - 1].key, 1)
  }

  function Charge(r: Refresh, sel: Selector): int
  {
    Count(r.log, sel) + 3 * Queued(r.queue, sel) + Owed(r.flying, sel)
  }

  /** No server is pinged more often than three times per listing. */
  ghost predicate InBudget(r: Refresh, servers: seq<Key>)
  {
    forall sel :: Charge(r, sel) <= 3 * Count(servers, sel)
  }

  /** The invariant as it also holds in the middle of a call. */
  ghost predicate Window(r: Refresh, servers: seq<Key>, now: nat)
  {
    Ordered(r, now) && InBudget(r, servers) && |r.queue| + |r.flying| <= |servers|
  }

  /** Between calls the window is bounded. */
  ghost predicate Inv(r: Refresh, servers: seq<Key>, now: nat)
  {
    Window(r, servers, now) && |r.flying| <= MAX_PARALLEL
  }

  /** Work left in a refresh: every event that changes anything lowers it. */
  function Potential(r: Refresh): int
  {
    4 * |r.queue| + |r.flying| + Owed(r.flying, All)
  }

  function Remaining(r: Refresh): nat { |r.queue| + |r.flying| }

  lemma {:induction false} OwedAppend(a: seq<Ping>, b: seq<Ping>, sel: Selector)
    ensures Owed(a + b, sel) == Owed(a, sel) + Owed(b, sel)
    decreases |b|
  {
    if b == [] {
      assert a + b == a;
    } else {
      OwedAppend(a, b[..|b| - 1], sel);
      assert (a + b)[..|a + b| - 1] == a + b[..|b| - 1];
    }
  }

  lemma OwedOne(p: Ping, sel: Selector)
    ensures Owed([p], sel) == Hit(sel, p.key, MAX_RETRIES - p.retries)
  {
    assert [p][..0] == [];
  }

  lemma {:induction false} OwedBounds(ps: seq<Ping>, sel: Selector)
    requires forall p <- ps :: p.retries <= MAX_RETRIES
    ensures 0 <= Owed(ps, sel) <= MAX_RETRIES * |ps|
    decreases |ps|
  {
    if ps != [] {
      OwedBounds(ps[..|ps| - 1], sel);
    }
  }

  lemma CountOne(keys: seq<Key>, key: Key, sel: Selector)
    ensures Count(keys + [key], sel) == Count(keys, sel) + Hit(sel, key, 1)
  {
    assert (keys + [key])[..|keys|] == keys;
  }

  lemma {:induction false} CountAll(keys: seq<Key>)
    ensures Count(keys, All) == |keys|
    decreases |keys|
  {
    if keys != [] {
      CountAll(keys[..|keys| - 1]);
    }
  }

  lemma {:induction false} QueuedHead(ps: seq<Ping>, sel: Selector)
    requires ps != []
    ensures Queued(ps, sel) == Hit(sel, ps[0].key, 1) + Queued(ps[1..], sel)
    decreases |ps|
  {
    if |ps| > 1 {
      QueuedHead(ps[..|ps| - 1], sel);
      assert ps[..|ps| - 1][1..] == ps[1..][..|ps| - 2];
    } else {
      assert ps[..0] == [] && ps[1..] == [];
    }
  }

  // ---- one timeout, one new ping, one reply ----

  lemma RemoveOrdered(r: Refresh, i: nat, now: nat)
    requires Ordered(r, now) && i < |r.flying|
    ensures Ordered(r.(flying := RemoveAt(r.flying, i)), now)
  {
    var ps := RemoveAt(r.flying, i);
    assert forall j :: 0 <= j < |ps| ==> ps[j] == r.flying[if j < i then j else j + 1];
  }

  lemma RemoveOwed(ps: seq<Ping>, i: nat, sel: Selector)
    requires i < |ps|
    ensures Owed(RemoveAt(ps, i), sel) == Owed(ps, sel) - Hit(sel, ps[i].key, MAX_RETRIES - ps[i].retries)
  {
    var a, p, b := ps[..i], ps[i], ps[i + 1..];
    assert ps == a + ([p] + b);
    OwedAppend(a, [p] + b, sel);
    OwedAppend([p], b, sel);
    OwedAppend(a, b, sel);
    OwedOne(p, sel);
  }

  /** Taking a record out of the window. */
  lemma RemoveKeeps(r: Refresh, i: nat, servers: seq<Key>, now: nat)
    requires Window(r, servers, now) && i < |r.flying|
    ensures var r' := r.(flying := RemoveAt(r.flying, i));
            && Window(r', servers, now)
            && Potential(r') == Potential(r) - 1 - MAX_RETRIES + r.flying[i].retries
            && forall sel :: Charge(r', sel)
                 == Charge(r, sel) - Hit(sel, r.flying[i].key, MAX_RETRIES - r.flying[i].retries)
  {
    RemoveOrdered(r, i, now);
    forall sel ensures Owed(RemoveAt(r.flying, i), sel)
                    == Owed(r.flying, sel) - Hit(sel, r.flying[i].key, MAX_RETRIES - r.flying[i].retries) {
      RemoveOwed(r.flying, i, sel);
    }
  }

  lemma AppendOrdered(r: Refresh, p: Ping, now: nat)
    requires Ordered(r, now)
    requires p.timestamp == now && p.id == |r.log| && p.retries <= MAX_RETRIES
    ensures Ordered(Refresh(r.queue, r.flying + [p], r.log + [p.key]), now)
  {
  }

  lemma AppendCharge(r: Refresh, p: Ping, sel: Selector)
    ensures Owed(r.flying + [p], sel) == Owed(r.flying, sel) + Hit(sel, p.key, MAX_RETRIES - p.retries)
    ensures Charge(Refresh(r.queue, r.flying + [p], r.log + [p.key]), sel)
         == Charge(r, sel) + Hit(sel, p.key, 1 + MAX_RETRIES - p.retries)
  {
    OwedAppend(r.flying, [p], sel);
    OwedOne(p, sel);
    CountOne(r.log, p.key, sel);
  }

  /** Adding a ping sent now to the window. */
  lemma AppendKeeps(r: Refresh, p: Ping, servers: seq<Key>, now: nat)
    requires Ordered(r, now) && Remaining(r) < |servers|
    requires p.timestamp == now && p.id == |r.log| && p.retries <= MAX_RETRIES
    requires forall sel :: Charge(r, sel) + Hit(sel, p.key, 1 + MAX_RETRIES - p.retries) <= 3 * Count(servers, sel)
    ensures var r' := Refresh(r.queue, r.flying + [p], r.log + [p.key]);
            && Window(r', servers, now)
            && Potential(r') == Potential(r) + 1 + MAX_RETRIES - p.retries
  {
    AppendOrdered(r, p, now);
    forall sel ensures Charge(Refresh(r.queue, r.flying + [p], r.log + [p.key]), sel)
                    == Charge(r, sel) + Hit(sel, p.key, 1 + MAX_RETRIES - p.retries) {
      AppendCharge(r, p, sel);
    }
    AppendCharge(r, p, All);
  }

  /** A record taken out and sent again costs no more than it was charged for. */
  lemma ResendCharge(r: Refresh, r1: Refresh, again: Ping, servers: seq<Key>, sel: Selector)
    requires InBudget(r, servers)
    requires Charge(r1, sel) == Charge(r, sel) - Hit(sel, again.key, 1 + MAX_RETRIES - again.retries)
    ensures Charge(r1, sel) + Hit(sel, again.key, 1 + MAX_RETRIES - again.retries) <= 3 * Count(servers, sel)
  {
    assert Charge(r, sel) <= 3 * Count(servers, sel);
  }

  lemma ResendKeeps(r: Refresh, again: Ping, servers: seq<Key>, now: nat)
    requires Window(r, servers, now) && r.flying != [] && r.flying[0].retries < MAX_RETRIES
    requires again == r.flying[0].(retries := r.flying[0].retries + 1, id := |r.log|, timestamp := now)
    ensures var r' := Refresh(r.queue, RemoveAt(r.flying, 0) + [again], r.log + [again.key]);
            Window(r', servers, now) && Potential(r') == Potential(r) - 1
  {
    var r1 := r.(flying := RemoveAt(r.flying, 0));
    RemoveKeeps(r, 0, servers, now);
    forall sel ensures Charge(r1, sel) + Hit(sel, again.key, 1 + MAX_RETRIES - again.retries)
                    <= 3 * Count(servers, sel) {
      ResendCharge(r, r1, again, servers, sel);
    }
    AppendKeeps(r1, again, servers, now);
  }

  lemma TimeoutOneKeeps(r: Refresh, servers: seq<Key>, now: nat)
    requires Window(r, servers, now) && r.flying != []
    ensures var r' := TimeoutOne(r, now);
            && Window(r', servers, now) && Potential(r') < Potential(r)
            && |r'.flying| <= |r.flying| && r'.queue == r.queue
  {
    var head := r.flying[0];
    if head.retries < MAX_RETRIES {
      var again := head.(retries := head.retries + 1, id := |r.log|, timestamp := now);
      var r' := Refresh(r.queue, RemoveAt(r.flying, 0) + [again], r.log + [again.key]);
      assert TimeoutOne(r, now) == r';
      ResendKeeps(r, again, servers, now);
      assert Window(r', servers, now);
    } else {
      var r' := r.(flying := RemoveAt(r.flying, 0));
      assert TimeoutOne(r, now) == r';
      RemoveKeeps(r, 0, servers, now);
      assert Window(r', servers, now);
    }
  }

  lemma LaunchOneKeeps(r: Refresh, servers: seq<Key>, now: nat)
    requires Window(r, servers, now) && r.queue != []
    ensures var r' := LaunchOne(r, now);
            && Window(r', servers, now) && Potential(r') < Potential(r) && Remaining(r') == Remaining(r)
  {
    var r1 := r.(queue := r.queue[1..]);
    forall sel ensures Charge(r1, sel) == Charge(r, sel) - Hit(sel, r.queue[0].key, 3) {
      QueuedHead(r.queue, sel);
    }
    AppendKeeps(r1, r.queue[0].(id := |r.log|, timestamp := now, retries := 0), servers, now);
  }

  // ---- whole calls ----

  lemma {:induction false} ScanKeeps(r: Refresh, servers: seq<Key>, now: nat)
    requires Window(r, servers, now)
    ensures var r' := ScanTimeouts(r, now);
            && Window(r', servers, now) && Potential(r') <= Potential(r)
            && |r'.flying| <= |r.flying| && r'.queue == r.queue
            && (r.flying != [] && Expired(r.flying[0], now) ==> Potential(r') < Potential(r))
            && (forall p <- r'.flying :: !Expired(p, now))
    decreases LeadingExpired(r.flying, now)
  {
    if r.flying == [] {
    } else if !Expired(r.flying[0], now) {
      forall p | p in r.flying ensures !Expired(p, now) {
        var j :| 0 <= j < |r.flying| && r.flying[j] == p;
      }
    } else {
      TimeoutOneProgress(r, now);
      TimeoutOneKeeps(r, servers, now);
      ScanKeeps(TimeoutOne(r, now), servers, now);
    }
  }

  lemma {:induction false} FillKeeps(r: Refresh, servers: seq<Key>, now: nat)
    requires Inv(r, servers, now) && forall p <- r.flying :: !Expired(p, now)
    ensures var r' := Fill(r, now);
            && Inv(r', servers, now) && Potential(r') <= Potential(r) && Remaining(r') == Remaining(r)
            && (forall p <- r'.flying :: !Expired(p, now))
            && (r'.queue == [] || |r'.flying| == MAX_PARALLEL)
    decreases |r.queue|
  {
    if |r.flying| < MAX_PARALLEL && r.queue != [] {
      LaunchOneKeeps(r, servers, now);
      FillKeeps(LaunchOne(r, now), servers, now);
    }
  }

  /** After a call no record in flight has timed out; the window is full unless the queue is empty; no work has
      been added, and some has been done if the head had timed out. */
  lemma MaybeSendKeeps(r: Refresh, servers: seq<Key>, now: nat)
    requires Inv(r, servers, now)
    ensures var r' := MaybeSend(r, now);
            && Inv(r', servers, now) && Potential(r') <= Potential(r) && Remaining(r') <= Remaining(r)
            && (forall p <- r'.flying :: !Expired(p, now))
            && (r'.queue == [] || |r'.flying| == MAX_PARALLEL)
            && (r.flying != [] && Expired(r.flying[0], now) ==> Potential(r') < Potential(r))
  {
    ScanKeeps(r, servers, now);
    FillKeeps(ScanTimeouts(r, now), servers, now);
  }

  lemma ReplyKeeps(r: Refresh, servers: seq<Key>, wire: nat, now: nat)
    requires Inv(r, servers, now)
    ensures var r' := Reply(r, wire, now);
            && Inv(r', servers, now) && Remaining(r') <= Remaining(r)
            && (FindWire(r.flying, wire) < |r.flying| ==> Potential(r') < Potential(r))
            && (FindWire(r.flying, wire) == |r.flying| ==> r' == r)
  {
    var i := FindWire(r.flying, wire);
    if i < |r.flying| {
      RemoveKeeps(r, i, servers, now);
      MaybeSendKeeps(r.(flying := RemoveAt(r.flying, i)), servers, now);
    }
  }
}
