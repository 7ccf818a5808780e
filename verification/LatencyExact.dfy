/** Exactly which pings a call keeps, sends again and sends for the first time, and in which order. */
module LatencyExact {
  import opened LatencySpec
  import opened LatencyProofs
  import opened LatencyRuns

  // ---- one call ----

  /** The records that have not timed out. */
  function Live(ps: seq<Ping>, now: nat): seq<Ping>
  {
    if ps == [] then [] else (if ps[0].timestamp + 5000 <= now then [] else [ps[0]]) + Live(ps[1..], now)
  }

  /** The timed-out records with a retry left, as they are sent again: one retry later, with fresh numbers. */
  function Resent(ps: seq<Ping>, now: nat, id: nat): seq<Ping>
  {
    if ps == [] then []
    else if ps[0].timestamp + 5000 <= now && ps[0].retries < 2 then
      [ps[0].(retries := ps[0].retries + 1, id := id, timestamp := now)] + Resent(ps[1..], now, id + 1)
    else Resent(ps[1..], now, id)
  }

  function KeysOf(ps: seq<Ping>): seq<Key>
  {
    seq(|ps|, i requires 0 <= i < |ps| => ps[i].key)
  }

  /** Queued records as they are sent for the first time. */
  function Launched(ps: seq<Ping>, now: nat, id: nat): (r: seq<Ping>)
    ensures |r| == |ps|
  {
    seq(|ps|, i requires 0 <= i < |ps| => Ping(ps[i].key, ps[i].distance, now, id + i, 0))
  }

  /** Sent earlier, listed earlier, and none in the future. */
  ghost predicate Timed(ps: seq<Ping>, now: nat)
  {
    && (forall i, j :: 0 <= i < j < |ps| ==> ps[i].timestamp <= ps[j].timestamp)
    && (forall i :: 0 <= i < |ps| ==> ps[i].timestamp <= now)
  }

  lemma {:induction false} AllLive(ps: seq<Ping>, now: nat, id: nat)
    requires forall i :: 0 <= i < |ps| ==> !Expired(ps[i], now)
    ensures Live(ps, now) == ps && Resent(ps, now, id) == []
    decreases |ps|
  {
    if ps != [] {
      AllLive(ps[1..], now, id);
    }
  }

  lemma {:induction false} LiveAppend(ps: seq<Ping>, p: Ping, now: nat)
    requires !Expired(p, now)
    ensures Live(ps + [p], now) == Live(ps, now) + [p]
    decreases |ps|
  {
    if ps == [] {
      assert ps + [p] == [p];
    } else {
      var head := if Expired(ps[0], now) then [] else [ps[0]];
      assert (ps + [p])[1..] == ps[1..] + [p];
      LiveAppend(ps[1..], p, now);
      assert head + (Live(ps[1..], now) + [p]) == head + Live(ps[1..], now) + [p];
    }
  }

  lemma {:induction false} ResentAppend(ps: seq<Ping>, p: Ping, now: nat, id: nat)
    requires !Expired(p, now)
    ensures Resent(ps + [p], now, id) == Resent(ps, now, id)
    decreases |ps|
  {
    if ps == [] {
      assert ps + [p] == [p];
    } else {
      assert (ps + [p])[1..] == ps[1..] + [p];
      ResentAppend(ps[1..], p, now, id);
      ResentAppend(ps[1..], p, now, id + 1);
    }
  }

  /** The refresh after the scan: the live records in their order, and behind them those sent again in theirs. */
  ghost predicate Scanned(r: Refresh, now: nat, r': Refresh)
  {
    var again := Resent(r.flying, now, |r.log|);
    r' == Refresh(r.queue, Live(r.flying, now) + again, r.log + KeysOf(again))
  }

  lemma TimeoutTimed(r: Refresh, now: nat)
    requires Timed(r.flying, now) && r.flying != []
    ensures Timed(TimeoutOne(r, now).flying, now)
  {
    var head, rest := r.flying[0], r.flying[1..];
    assert RemoveAt(r.flying, 0) == rest;
    if head.retries < MAX_RETRIES {
      var again := head.(retries := head.retries + 1, id := |r.log|, timestamp := now);
      TimedAppend(rest, again, now);
      assert TimeoutOne(r, now).flying == rest + [again];
    } else {
      assert TimeoutOne(r, now).flying == rest;
    }
  }

  lemma TimedAppend(ps: seq<Ping>, p: Ping, now: nat)
    requires Timed(ps, now) && p.timestamp == now
    ensures Timed(ps + [p], now)
  {
  }

  lemma ScanStep(r: Refresh, now: nat, r': Refresh)
    requires r.flying != [] && Expired(r.flying[0], now) && Scanned(TimeoutOne(r, now), now, r')
    ensures Scanned(r, now, r')
  {
    var head, rest, id := r.flying[0], r.flying[1..], |r.log|;
    assert RemoveAt(r.flying, 0) == rest;
    assert Live(r.flying, now) == Live(rest, now);
    if head.retries < MAX_RETRIES {
      var again := head.(retries := head.retries + 1, id := id, timestamp := now);
      var later := Resent(rest, now, id + 1);
      LiveAppend(rest, again, now);
      ResentAppend(rest, again, now, id + 1);
      assert TimeoutOne(r, now) == Refresh(r.queue, rest + [again], r.log + [head.key]);
      assert Resent(r.flying, now, id) == [again] + later;
      ScanJoin(Live(rest, now), again, later, r.log);
    } else {
      assert TimeoutOne(r, now) == Refresh(r.queue, rest, r.log);
      assert Resent(r.flying, now, id) == Resent(rest, now, id);
    }
  }

  lemma ScanJoin(live: seq<Ping>, again: Ping, later: seq<Ping>, log: seq<Key>)
    ensures live + [again] + later == live + ([again] + later)
    ensures log + [again.key] + KeysOf(later) == log + KeysOf([again] + later)
  {
    assert KeysOf([again] + later) == [again.key] + KeysOf(later);
  }

  lemma {:induction false} ScanExactly(r: Refresh, now: nat)
    requires Timed(r.flying, now)
    ensures Scanned(r, now, ScanTimeouts(r, now))
    decreases LeadingExpired(r.flying, now)
  {
    if r.flying == [] || !Expired(r.flying[0], now) {
      AllLive(r.flying, now, |r.log|);
      assert r.flying + [] == r.flying && r.log + KeysOf([]) == r.log;
    } else {
      TimeoutOneProgress(r, now);
      TimeoutTimed(r, now);
      ScanExactly(TimeoutOne(r, now), now);
      ScanStep(r, now, ScanTimeouts(r, now));
    }
  }

  /** How many pings are started: up to eight in flight, while there are any queued. */
  function Room(flying: nat, queued: nat): (k: nat)
    ensures k <= queued
  {
    if flying >= 8 then 0 else if queued < 8 - flying then queued else 8 - flying
  }

  /** The window is filled from the front of the queue, in its order. */
  ghost predicate Filled(r: Refresh, now: nat, r': Refresh)
  {
    var k := Room(|r.flying|, |r.queue|);
    r' == Refresh(r.queue[k..], r.flying + Launched(r.queue[..k], now, |r.log|), r.log + KeysOf(r.queue[..k]))
  }

  lemma LaunchedHead(ps: seq<Ping>, now: nat, id: nat)
    requires ps != []
    ensures Launched(ps, now, id) == [Ping(ps[0].key, ps[0].distance, now, id, 0)] + Launched(ps[1..], now, id + 1)
    ensures KeysOf(ps) == [ps[0].key] + KeysOf(ps[1..])
  {
  }

  lemma FillStep(r: Refresh, now: nat, r': Refresh)
    requires r.queue != [] && |r.flying| < 8 && Filled(LaunchOne(r, now), now, r')
    ensures Filled(r, now, r')
  {
    var k := Room(|r.flying|, |r.queue|);
    var p := r.queue[0].(id := |r.log|, timestamp := now, retries := 0);
    var rest := r.queue[1..];
    assert Room(|r.flying| + 1, |rest|) == k - 1;
    assert LaunchOne(r, now) == Refresh(rest, r.flying + [p], r.log + [p.key]);
    assert r.queue[..k][1..] == rest[..k - 1] && rest[k - 1..] == r.queue[k..];
    LaunchedHead(r.queue[..k], now, |r.log|);
    FillJoin(r.flying, p, Launched(rest[..k - 1], now, |r.log| + 1), r.log, KeysOf(rest[..k - 1]));
  }

  lemma FillJoin(flying: seq<Ping>, p: Ping, later: seq<Ping>, log: seq<Key>, keys: seq<Key>)
    ensures flying + [p] + later == flying + ([p] + later) && log + [p.key] + keys == log + ([p.key] + keys)
  {
  }

  lemma {:induction false} FillExactly(r: Refresh, now: nat)
    ensures Filled(r, now, Fill(r, now))
    decreases |r.queue|
  {
    if |r.flying| >= 8 || r.queue == [] {
      assert r.flying + Launched([], now, |r.log|) == r.flying && r.log + KeysOf([]) == r.log;
      assert r.queue[..0] == [];
    } else {
      FillExactly(LaunchOne(r, now), now);
      FillStep(r, now, Fill(r, now));
    }
  }

  /** A call keeps the live records, sends the timed-out ones with retries left again behind them, and then as many from
      the front of the queue as fit, in its order. */
  ghost predicate Called(r: Refresh, now: nat, r': Refresh)
  {
    var live, again := Live(r.flying, now), Resent(r.flying, now, |r.log|);
    var k := Room(|live| + |again|, |r.queue|);
    && r'.queue == r.queue[k..]
    && r'.flying == live + again + Launched(r.queue[..k], now, |r.log| + |again|)
    && r'.log == r.log + KeysOf(again) + KeysOf(r.queue[..k])
  }

  lemma CallExactly(r: Refresh, now: nat)
    requires Timed(r.flying, now)
    ensures Called(r, now, MaybeSend(r, now))
  {
    ScanExactly(r, now);
    FillExactly(ScanTimeouts(r, now), now);
  }

  lemma OrderedIsTimed(r: Refresh, now: nat)
    requires Ordered(r, now)
    ensures Timed(r.flying, now)
  {
    assert forall i :: 0 <= i < |r.flying| ==> r.flying[i] in r.flying;
  }

  // ---- one reply ----

  lemma {:induction false} LiveMeaning(ps: seq<Ping>, now: nat, p: Ping)
    ensures p in Live(ps, now) <==> p in ps && !Expired(p, now)
    decreases |ps|
  {
    if ps != [] {
      LiveMeaning(ps[1..], now, p);
      assert ps == [ps[0]] + ps[1..];
    }
  }

  /** `q` is `p` sent again. */
  predicate IsRetry(q: Ping, p: Ping, now: nat)
  {
    q.key == p.key && q.distance == p.distance && q.retries == p.retries + 1 && q.timestamp == now
  }

  lemma ResentHead(ps: seq<Ping>, now: nat, id: nat)
    requires ps != []
    ensures var head, rest := ps[0], ps[1..];
            if Expired(head, now) && head.retries < MAX_RETRIES then
              && Resent(ps, now, id)
              == [head.(retries := head.retries + 1, id := id, timestamp := now)] + Resent(rest, now, id + 1)
            else Resent(ps, now, id) == Resent(rest, now, id)
  {
  }

  /** A timed-out record with retries left is sent again. */
  lemma {:induction false} RetryExists(ps: seq<Ping>, now: nat, id: nat, p: Ping) returns (q: Ping)
    requires p in ps && Expired(p, now) && p.retries < MAX_RETRIES
    ensures q in Resent(ps, now, id) && IsRetry(q, p, now)
    decreases |ps|
  {
    ResentHead(ps, now, id);
    var head := ps[0];
    if p == head {
      q := head.(retries := head.retries + 1, id := id, timestamp := now);
    } else {
      assert p in ps[1..];
      q := RetryExists(ps[1..], now, if Expired(head, now) && head.retries < MAX_RETRIES then id + 1 else id, p);
    }
  }

  /** Nothing else is sent again, and what is has a fresh number. */
  lemma {:induction false} RetryHasOrigin(ps: seq<Ping>, now: nat, id: nat, q: Ping) returns (p: Ping)
    requires q in Resent(ps, now, id)
    ensures q.id >= id && p in ps && Expired(p, now) && p.retries < MAX_RETRIES && IsRetry(q, p, now)
    decreases |ps|
  {
    ResentHead(ps, now, id);
    var head := ps[0];
    if Expired(head, now) && head.retries < MAX_RETRIES {
      if q == head.(retries := head.retries + 1, id := id, timestamp := now) {
        p := head;
      } else {
        assert q in Resent(ps[1..], now, id + 1);
        p := RetryHasOrigin(ps[1..], now, id + 1, q);
      }
    } else {
      p := RetryHasOrigin(ps[1..], now, id, q);
    }
  }

  /** What becomes of record `j` when record `i` is answered, told by the records' numbers: the answered one is gone;
      another that has not timed out is still there as it was; one that has is gone under its number, and there once
      more, one retry later, if it had retries left. */
  ghost predicate Fate(r: Refresh, r': Refresh, now: nat, i: nat, j: nat)
    requires i < |r.flying| && j < |r.flying|
  {
    var p := r.flying[j];
    if j == i then forall q <- r'.flying :: q.id != p.id
    else if !Expired(p, now) then p in r'.flying
    else
      && (forall q <- r'.flying :: q.id != p.id)
      && (p.retries < MAX_RETRIES ==> exists q :: q in r'.flying && IsRetry(q, p, now))
  }

  ghost predicate AllFates(r: Refresh, r': Refresh, now: nat, i: nat)
    requires i < |r.flying|
  {
    forall j :: 0 <= j < |r.flying| ==> Fate(r, r', now, i, j)
  }

  lemma FateOf(r: Refresh, servers: seq<Key>, now: nat, r': Refresh, i: nat, j: nat)
    requires Inv(r, servers, now) && i < |r.flying| && j < |r.flying|
    requires Called(r.(flying := r.flying[..i] + r.flying[i + 1..]), now, r')
    ensures Fate(r, r', now, i, j)
  {
    if j == i {
      FateGone(r, servers, now, r', i, j);
    } else if !Expired(r.flying[j], now) {
      FateStays(r, now, r', i, j);
    } else {
      FateGone(r, servers, now, r', i, j);
      FateStays(r, now, r', i, j);
    }
  }

  lemma FateGone(r: Refresh, servers: seq<Key>, now: nat, r': Refresh, i: nat, j: nat)
    requires Inv(r, servers, now) && i < |r.flying| && j < |r.flying| && (j == i || Expired(r.flying[j], now))
    requires Called(r.(flying := r.flying[..i] + r.flying[i + 1..]), now, r')
    ensures forall q <- r'.flying :: q.id != r.flying[j].id
  {
    var r1 := r.(flying := r.flying[..i] + r.flying[i + 1..]);
    CameFrom(r1, now, r');
    NumberGone(r, servers, r1, now, r', i, j);
  }

  lemma FateStays(r: Refresh, now: nat, r': Refresh, i: nat, j: nat)
    requires i < |r.flying| && j < |r.flying| && j != i
    requires Called(r.(flying := r.flying[..i] + r.flying[i + 1..]), now, r')
    ensures !Expired(r.flying[j], now) ==> r.flying[j] in r'.flying
    ensures Expired(r.flying[j], now) && r.flying[j].retries < MAX_RETRIES ==>
              exists q :: q in r'.flying && IsRetry(q, r.flying[j], now)
  {
    var others := r.flying[..i] + r.flying[i + 1..];
    OtherFate(r.(flying := others), now, r', r.flying[j], if j < i then j else j - 1);
  }

  lemma CameFrom(r: Refresh, now: nat, r': Refresh)
    requires Called(r, now, r')
    ensures forall q <- r'.flying :: (q in r.flying && !Expired(q, now)) || q.id >= |r.log|
  {
    InFlightAfter(r, now, r');
  }

  /** What a matched reply does to every record, and to the queue: a call on the others. */
  lemma ReplyExactly(r: Refresh, servers: seq<Key>, wire: nat, now: nat, i: nat)
    requires Inv(r, servers, now) && i < |r.flying| && r.flying[i].id % WIRE == wire
    requires forall j :: 0 <= j < |r.flying| && j != i ==> r.flying[j].id % WIRE != wire
    ensures AllFates(r, Step(r, Replied(wire, now)), now, i)
    ensures Called(r.(flying := r.flying[..i] + r.flying[i + 1..]), now, Step(r, Replied(wire, now)))
  {
    ReplyShape(r, wire, now, i);
    var r' := Step(r, Replied(wire, now));
    forall j | 0 <= j < |r.flying| ensures Fate(r, r', now, i, j) {
      FateOf(r, servers, now, r', i, j);
    }
  }

  lemma OtherFate(r: Refresh, now: nat, r': Refresh, p: Ping, j: nat)
    requires Called(r, now, r') && j < |r.flying| && r.flying[j] == p
    ensures !Expired(p, now) ==> p in r'.flying
    ensures Expired(p, now) && p.retries < MAX_RETRIES ==> exists q :: q in r'.flying && IsRetry(q, p, now)
  {
    InFlightAfter(r, now, r');
    assert p in r.flying;
  }

  /** A matched reply is a call on the records without the answered one. */
  lemma ReplyShape(r: Refresh, wire: nat, now: nat, i: nat)
    requires Ordered(r, now) && i < |r.flying| && r.flying[i].id % WIRE == wire
    requires forall j :: 0 <= j < |r.flying| && j != i ==> r.flying[j].id % WIRE != wire
    ensures Called(r.(flying := r.flying[..i] + r.flying[i + 1..]), now, Step(r, Replied(wire, now)))
  {
    assert FindWire(r.flying, wire) == i;
    assert RemoveAt(r.flying, i) == r.flying[..i] + r.flying[i + 1..];
    ReplyCalls(r, wire, now, i);
  }

  lemma OthersOrdered(r: Refresh, i: nat, others: seq<Ping>)
    requires i < |r.flying| && others == r.flying[..i] + r.flying[i + 1..]
    ensures forall p <- others :: exists k :: 0 <= k < |r.flying| && k != i && r.flying[k] == p
  {
    forall p | p in others ensures exists k :: 0 <= k < |r.flying| && k != i && r.flying[k] == p {
      var m :| 0 <= m < |others| && others[m] == p;
      assert r.flying[if m < i then m else m + 1] == p;
    }
  }

  /** What is in flight after a call, by where it comes from. */
  lemma InFlightAfter(r: Refresh, now: nat, r': Refresh)
    requires Called(r, now, r')
    ensures forall p <- r.flying :: !Expired(p, now) ==> p in r'.flying
    ensures forall p <- r.flying :: Expired(p, now) && p.retries < MAX_RETRIES ==>
              exists q :: q in r'.flying && IsRetry(q, p, now)
    ensures forall q <- r'.flying :: (q in r.flying && !Expired(q, now)) || q.id >= |r.log|
  {
    var live, again := Live(r.flying, now), Resent(r.flying, now, |r.log|);
    var k := Room(|live| + |again|, |r.queue|);
    var first := Launched(r.queue[..k], now, |r.log| + |again|);
    assert r'.flying == live + again + first;
    forall p | p in r.flying && !Expired(p, now) ensures p in r'.flying {
      LiveMeaning(r.flying, now, p);
    }
    forall p | p in r.flying && Expired(p, now) && p.retries < MAX_RETRIES
      ensures exists q :: q in r'.flying && IsRetry(q, p, now)
    {
      var q := RetryExists(r.flying, now, |r.log|, p);
    }
    forall q | q in r'.flying ensures (q in r.flying && !Expired(q, now)) || q.id >= |r.log| {
      if q in live {
        LiveMeaning(r.flying, now, q);
      } else if q in again {
        var p := RetryHasOrigin(r.flying, now, |r.log|, q);
      } else {
        var m :| 0 <= m < |first| && first[m] == q;
      }
    }
  }

  /** A record that was answered or has timed out is no longer in flight under its number. */
  lemma NumberGone(r: Refresh, servers: seq<Key>, r1: Refresh, now: nat, r': Refresh, i: nat, j: nat)
    requires Inv(r, servers, now) && i < |r.flying| && j < |r.flying| && (j == i || Expired(r.flying[j], now))
    requires r1 == r.(flying := r.flying[..i] + r.flying[i + 1..])
    requires forall q <- r'.flying :: (q in r1.flying && !Expired(q, now)) || q.id >= |r.log|
    ensures forall q <- r'.flying :: q.id != r.flying[j].id
  {
    OthersOrdered(r, i, r1.flying);
    forall q | q in r'.flying ensures q.id != r.flying[j].id {
      assert r.flying[j] in r.flying;
      if q.id < |r.log| {
        var k :| 0 <= k < |r.flying| && k != i && r.flying[k] == q;
        assert k != j;
      }
    }
  }

  // ---- the order of first pings ----

  /** The log holds each of these keys at its place in `at`, in order, as the first pings; every other entry pings one
      of them again. */
  ghost predicate FirstPings(log: seq<Key>, keys: seq<Key>, at: seq<nat>)
  {
    && |at| == |keys|
    && (forall i, j :: 0 <= i < j < |at| ==> at[i] < at[j])
    && (forall j :: 0 <= j < |at| ==> at[j] < |log| && log[at[j]] == keys[j])
    && (forall m :: 0 <= m < |log| && m !in at ==> exists j :: 0 <= j < |at| && at[j] < m && keys[j] == log[m])
  }

  ghost predicate Begun(ps: seq<Ping>, keys: seq<Key>) { forall p <- ps :: p.key in keys }

  lemma RepeatedPings(log: seq<Key>, keys: seq<Key>, at: seq<nat>, again: seq<Key>)
    requires FirstPings(log, keys, at) && forall key <- again :: key in keys
    ensures FirstPings(log + again, keys, at)
  {
    var log' := log + again;
    forall m | 0 <= m < |log'| && m !in at ensures exists j :: 0 <= j < |at| && at[j] < m && keys[j] == log'[m] {
      if m >= |log| {
        assert log'[m] == again[m - |log|] && again[m - |log|] in again;
        var j :| 0 <= j < |keys| && keys[j] == log'[m];
        assert at[j] < m;
      }
    }
  }

  lemma NewPings(log: seq<Key>, keys: seq<Key>, at: seq<nat>, more: seq<Key>) returns (at': seq<nat>)
    requires FirstPings(log, keys, at)
    ensures FirstPings(log + more, keys + more, at')
  {
    var tail := seq(|more|, i => |log| + i);
    at' := at + tail;
    assert forall j :: 0 <= j < |tail| ==> tail[j] == |log| + j;
    PlacesIncrease(log, keys, at, more, tail);
    forall m | 0 <= m < |log + more| && m !in at'
      ensures exists j :: 0 <= j < |at'| && at'[j] < m && (keys + more)[j] == (log + more)[m]
    {
      EarlierPing(log, keys, at, more, tail, m);
    }
  }

  lemma PlacesIncrease(log: seq<Key>, keys: seq<Key>, at: seq<nat>, more: seq<Key>, tail: seq<nat>)
    requires |at| == |keys| && (forall i, j :: 0 <= i < j < |at| ==> at[i] < at[j])
    requires forall j :: 0 <= j < |at| ==> at[j] < |log| && log[at[j]] == keys[j]
    requires |tail| == |more| && forall j :: 0 <= j < |tail| ==> tail[j] == |log| + j
    ensures var places := at + tail;
            && |places| == |keys + more|
            && (forall i, j :: 0 <= i < j < |places| ==> places[i] < places[j])
            && (forall j :: 0 <= j < |places| ==>
                  places[j] < |log + more| && (log + more)[places[j]] == (keys + more)[j])
  {
  }

  lemma TailMember(tail: seq<nat>, n: nat, m: nat)
    requires n <= m < n + |tail| && forall j :: 0 <= j < |tail| ==> tail[j] == n + j
    ensures m in tail
  {
    assert tail[m - n] == m;
  }

  lemma EarlierPing(log: seq<Key>, keys: seq<Key>, at: seq<nat>, more: seq<Key>, tail: seq<nat>, m: nat)
    requires FirstPings(log, keys, at) && m < |log + more| && m !in at + tail
    requires |tail| == |more| && forall j :: 0 <= j < |tail| ==> tail[j] == |log| + j
    ensures exists j :: 0 <= j < |at + tail| && (at + tail)[j] < m && (keys + more)[j] == (log + more)[m]
  {
    if m >= |log| {
      TailMember(tail, |log|, m);
    } else {
      assert m !in at;
      var j :| 0 <= j < |at| && at[j] < m && keys[j] == log[m];
      assert (at + tail)[j] == at[j] && (keys + more)[j] == keys[j];
    }
  }

  /** The queue is what is left of the sorted servers, and the first pings are the others, in their order. */
  ghost predicate InQueueOrder(r: Refresh, all: seq<Ping>, k: nat, at: seq<nat>)
  {
    && k <= |all| && r.queue == all[k..]
    && FirstPings(r.log, KeysOf(all[..k]), at) && Begun(r.flying, KeysOf(all[..k]))
  }

  lemma CallInOrder(r: Refresh, now: nat, r': Refresh, all: seq<Ping>, k: nat, at: seq<nat>)
    returns (k': nat, at': seq<nat>)
    requires InQueueOrder(r, all, k, at) && Called(r, now, r')
    ensures InQueueOrder(r', all, k', at')
  {
    var m := Started(r, now);
    k' := k + m;
    KeysSplit(all, k, m);
    at' := CallPings(r, now, r', KeysOf(all[..k]), at);
    CallBegun(r, now, r', KeysOf(all[..k]));
    QueueOrderHolds(r', all, k', at', KeysOf(all[..k]) + KeysOf(r.queue[..m]));
  }

  /** How many pings a call starts. */
  function Started(r: Refresh, now: nat): (m: nat)
    ensures m <= |r.queue|
  {
    Room(|Live(r.flying, now)| + |Resent(r.flying, now, |r.log|)|, |r.queue|)
  }

  lemma CallPings(r: Refresh, now: nat, r': Refresh, keys: seq<Key>, at: seq<nat>) returns (at': seq<nat>)
    requires FirstPings(r.log, keys, at) && Begun(r.flying, keys) && Called(r, now, r')
    ensures FirstPings(r'.log, keys + KeysOf(r.queue[..Started(r, now)]), at')
  {
    var again, more := Resent(r.flying, now, |r.log|), KeysOf(r.queue[..Started(r, now)]);
    at' := CallFirstPings(r, now, again, keys, at, more);
    assert r'.log == r.log + KeysOf(again) + more;
  }

  lemma QueueOrderHolds(r: Refresh, all: seq<Ping>, k: nat, at: seq<nat>, keys: seq<Key>)
    requires k <= |all| && r.queue == all[k..] && keys == KeysOf(all[..k])
    requires FirstPings(r.log, keys, at) && Begun(r.flying, keys)
    ensures InQueueOrder(r, all, k, at)
  {
  }

  lemma KeysSplit(all: seq<Ping>, k: nat, m: nat)
    requires k + m <= |all|
    ensures KeysOf(all[..k + m]) == KeysOf(all[..k]) + KeysOf(all[k..][..m]) && all[k..][m..] == all[k + m..]
  {
    assert all[..k + m] == all[..k] + all[k..][..m];
  }

  lemma CallFirstPings(r: Refresh, now: nat, again: seq<Ping>, keys: seq<Key>, at: seq<nat>, more: seq<Key>)
    returns (at': seq<nat>)
    requires FirstPings(r.log, keys, at) && Begun(r.flying, keys) && again == Resent(r.flying, now, |r.log|)
    ensures FirstPings(r.log + KeysOf(again) + more, keys + more, at')
  {
    BegunAgain(r.flying, now, |r.log|, keys);
    BegunKeys(again, keys);
    RepeatedPings(r.log, keys, at, KeysOf(again));
    at' := NewPings(r.log + KeysOf(again), keys, at, more);
  }

  lemma CallBegun(r: Refresh, now: nat, r': Refresh, keys: seq<Key>)
    requires Begun(r.flying, keys) && Called(r, now, r')
    ensures Begun(r'.flying, keys + KeysOf(r.queue[..Started(r, now)]))
  {
    var live, again, m := Live(r.flying, now), Resent(r.flying, now, |r.log|), Started(r, now);
    BegunAgain(r.flying, now, |r.log|, keys);
    LaunchedBegun(r.queue[..m], now, |r.log| + |again|);
    BegunWider(live, again, Launched(r.queue[..m], now, |r.log| + |again|), keys, KeysOf(r.queue[..m]));
  }

  lemma BegunKeys(ps: seq<Ping>, keys: seq<Key>)
    requires Begun(ps, keys)
    ensures forall key <- KeysOf(ps) :: key in keys
  {
    forall key | key in KeysOf(ps) ensures key in keys {
      var j :| 0 <= j < |ps| && KeysOf(ps)[j] == key;
      assert ps[j] in ps;
    }
  }

  lemma LaunchedBegun(ps: seq<Ping>, now: nat, id: nat)
    ensures Begun(Launched(ps, now, id), KeysOf(ps))
  {
    forall p | p in Launched(ps, now, id) ensures p.key in KeysOf(ps) {
      var j :| 0 <= j < |ps| && Launched(ps, now, id)[j] == p;
      assert KeysOf(ps)[j] == p.key;
    }
  }

  lemma BegunWider(a: seq<Ping>, b: seq<Ping>, c: seq<Ping>, keys: seq<Key>, more: seq<Key>)
    requires Begun(a, keys) && Begun(b, keys) && Begun(c, more)
    ensures Begun(a + b + c, keys + more)
  {
  }

  lemma BegunAgain(ps: seq<Ping>, now: nat, id: nat, keys: seq<Key>)
    requires Begun(ps, keys)
    ensures Begun(Live(ps, now), keys) && Begun(Resent(ps, now, id), keys)
  {
    forall p | p in Live(ps, now) ensures p.key in keys {
      LiveMeaning(ps, now, p);
    }
    forall q | q in Resent(ps, now, id) ensures q.key in keys {
      var p := RetryHasOrigin(ps, now, id, q);
    }
  }

  lemma StepInOrder(r: Refresh, servers: seq<Key>, e: Event, all: seq<Ping>, k: nat, at: seq<nat>)
    returns (k': nat, at': seq<nat>)
    requires Inv(r, servers, e.now) && InQueueOrder(r, all, k, at)
    ensures InQueueOrder(Step(r, e), all, k', at')
  {
    match e
    case Timer(now) =>
      OrderedIsTimed(r, now);
      CallExactly(r, now);
      k', at' := CallInOrder(r, now, Step(r, e), all, k, at);
    case Replied(wire, now) =>
      var i := FindWire(r.flying, wire);
      if i == |r.flying| {
        k', at' := k, at;
      } else {
        var r1 := r.(flying := RemoveAt(r.flying, i));
        ReplyCalls(r, wire, now, i);
        FewerBegun(r, all, k, at, i);
        k', at' := CallInOrder(r1, now, Step(r, e), all, k, at);
      }
  }

  lemma ReplyCalls(r: Refresh, wire: nat, now: nat, i: nat)
    requires Ordered(r, now) && i == FindWire(r.flying, wire) < |r.flying|
    ensures Called(r.(flying := RemoveAt(r.flying, i)), now, Step(r, Replied(wire, now)))
  {
    OrderedIsTimed(r, now);
    FewerTimed(r.flying, now, i);
    CallExactly(r.(flying := RemoveAt(r.flying, i)), now);
  }

  lemma FewerTimed(ps: seq<Ping>, now: nat, i: nat)
    requires Timed(ps, now) && i < |ps|
    ensures Timed(RemoveAt(ps, i), now)
  {
    assert forall j :: 0 <= j < |RemoveAt(ps, i)| ==> RemoveAt(ps, i)[j] == ps[if j < i then j else j + 1];
  }

  lemma FewerBegun(r: Refresh, all: seq<Ping>, k: nat, at: seq<nat>, i: nat)
    requires InQueueOrder(r, all, k, at) && i < |r.flying|
    ensures InQueueOrder(r.(flying := RemoveAt(r.flying, i)), all, k, at)
  {
    assert forall p <- RemoveAt(r.flying, i) :: p in r.flying;
  }

  /** In every run the queue is what is left of the servers sorted by distance, and they are first pinged in exactly
      that order. */
  lemma {:induction false} SentInOrder(cities: seq<City>, start: nat, rs: seq<Refresh>, es: seq<Event>, n: nat)
    returns (k: nat, at: seq<nat>)
    requires IsRun(cities, start, rs, es) && n <= |es|
    ensures InQueueOrder(rs[n], BuildQueue(cities), k, at)
    decreases n
  {
    if n == 0 {
      k, at := FirstOfRun(cities, start, rs, es);
    } else {
      k, at := SentInOrder(cities, start, rs, es, n - 1);
      k, at := RunStepInOrder(cities, start, rs, es, n - 1, k, at);
    }
  }

  lemma FirstCallInOrder(all: seq<Ping>, start: nat) returns (k: nat, at: seq<nat>)
    ensures InQueueOrder(MaybeSend(Refresh(all, [], []), start), all, k, at)
  {
    var r := Refresh(all, [], []);
    assert all[0..] == all && KeysOf(all[..0]) == [];
    CallExactly(r, start);
    k, at := CallInOrder(r, start, MaybeSend(r, start), all, 0, []);
  }

  lemma FirstOfRun(cities: seq<City>, start: nat, rs: seq<Refresh>, es: seq<Event>) returns (k: nat, at: seq<nat>)
    requires IsRun(cities, start, rs, es)
    ensures InQueueOrder(rs[0], BuildQueue(cities), k, at)
  {
    k, at := FirstCallInOrder(BuildQueue(cities), start);
  }

  lemma RunStepInOrder(cities: seq<City>, start: nat, rs: seq<Refresh>, es: seq<Event>, n: nat, k: nat, at: seq<nat>)
    returns (k': nat, at': seq<nat>)
    requires IsRun(cities, start, rs, es) && n < |es| && InQueueOrder(rs[n], BuildQueue(cities), k, at)
    ensures InQueueOrder(rs[n + 1], BuildQueue(cities), k', at')
  {
    RunInv(cities, start, rs, es, n);
    LaterGood(rs[n], AllServers(cities), Clock(start, es, n), es[n].now);
    k', at' := StepInOrder(rs[n], AllServers(cities), es[n], BuildQueue(cities), k, at);
    assert StepAt(rs, es, n);
  }

  /** The first call pings the first eight servers of the sorted queue. */
  lemma FirstCallPingsNearest(cities: seq<City>, start: nat, rs: seq<Refresh>, es: seq<Event>)
    requires IsRun(cities, start, rs, es)
    ensures var all := BuildQueue(cities);
            var k := if |all| < 8 then |all| else 8;
            rs[0].log == KeysOf(all[..k]) && rs[0].queue == all[k..] && |rs[0].flying| == k
  {
    CallExactly(Refresh(BuildQueue(cities), [], []), start);
  }

  /** In every run with at most 21845 servers a reply takes exactly the ping it answers out of flight. */
  lemma RepliesTakeTheirPing(cities: seq<City>, start: nat, rs: seq<Refresh>, es: seq<Event>, n: nat, i: nat)
    requires IsRun(cities, start, rs, es) && n < |es| && i < |rs[n].flying| && 3 * |AllServers(cities)| <= WIRE
    requires es[n].Replied? && es[n].wire == rs[n].flying[i].id % WIRE
    ensures var others := rs[n].flying[..i] + rs[n].flying[i + 1..];
            Called(rs[n].(flying := others), es[n].now, rs[n + 1])
    ensures AllFates(rs[n], rs[n + 1], es[n].now, i)
  {
    RunInv(cities, start, rs, es, n);
    LaterGood(rs[n], AllServers(cities), Clock(start, es, n), es[n].now);
    forall j | 0 <= j < |rs[n].flying| && j != i ensures rs[n].flying[j].id % WIRE != es[n].wire {
      RepliesMatch(cities, start, rs, es, n, i);
      RepliesMatch(cities, start, rs, es, n, j);
    }
    assert StepAt(rs, es, n);
    ReplyExactly(rs[n], AllServers(cities), es[n].wire, es[n].now, i);
  }
}
