/** The ping scheduler: an object that works its lists in place, with 16-bit sequence numbers. */
module LatencyScheduler {
  import opened Common
  import opened LatencySpec

  /** A list entry; `sequence` is 16 bits wide. */
  datatype Record = Record(key: Key, timestamp: nat, sequence: nat, distance: real, retries: nat)

  const UINT_MAX := 0xffff_ffff

  function Concrete(p: Ping): Record
  {
    Record(p.key, p.timestamp, p.id % WIRE, p.distance, p.retries)
  }

  ghost predicate Represents(rs: seq<Record>, ps: seq<Ping>)
  {
    |rs| == |ps| && forall i :: 0 <= i < |ps| ==> rs[i] == Concrete(ps[i])
  }

  class Scheduler {
    var sequence: nat
    var active: bool
    var sendQueue: seq<Record>
    var replyList: seq<Record>
    var sendTotal: nat
    var pingTimeout: Option<int>
    /** The refresh with unbounded ping numbers. */
    ghost var r: Refresh

    ghost predicate Valid()
      reads this
    {
      && sequence == |r.log| % WIRE
      && Represents(sendQueue, r.queue)
      && Represents(replyList, r.flying)
      && (!active ==> sendQueue == [] && replyList == [])
    }

    constructor ()
      ensures Valid() && !active && r == Refresh([], [], [])
    {
      sequence, active, sendQueue, replyList, sendTotal, pingTimeout := 0, false, [], [], 0, None;
      r := Refresh([], [], []);
    }

    method Stop()
      requires Valid()
      modifies this
      ensures Valid() && !active && pingTimeout == None && sendTotal == 0
      ensures r == old(r).(queue := [], flying := [])
    {
      pingTimeout := None;
      sendQueue, replyList, sendTotal := [], [], 0;
      active := false;
      r := r.(queue := [], flying := []);
    }

    /** Resend or give up the record at the head of the list. */
    method TimeoutHead(now: nat)
      requires Valid() && active && replyList != []
      modifies this
      ensures Valid() && r == TimeoutOne(old(r), now)
      ensures active == old(active) && sendTotal == old(sendTotal)
    {
      TimeoutRepresents(replyList, r, now);
      var record := replyList[0];
      if record.retries < MAX_RETRIES {
        var retry := record.(retries := record.retries + 1, sequence := sequence, timestamp := now);
        sequence := (sequence + 1) % WIRE;
        replyList := replyList + [retry];
      }
      replyList := replyList[1..];
      r := TimeoutOne(r, now);
    }

    /** Resend or give up every timed-out record at the head of the list. */
    method ExpirePings(now: nat)
      requires Valid() && active
      modifies this
      ensures Valid() && r == ScanTimeouts(old(r), now)
      ensures active == old(active) && sendTotal == old(sendTotal)
    {
      while replyList != []
        invariant Valid() && ScanTimeouts(r, now) == ScanTimeouts(old(r), now)
        invariant active == old(active) && sendTotal == old(sendTotal)
        decreases LeadingExpired(r.flying, now)
      {
        if replyList[0].timestamp + TIMEOUT > now {
          break;
        }
        TimeoutOneProgress(r, now);
        TimeoutHead(now);
      }
    }

    /** Start pings from the queue until eight are in flight. */
    method FillWindow(now: nat)
      requires Valid() && active
      modifies this
      ensures Valid() && r == Fill(old(r), now)
      ensures active == old(active) && sendTotal == old(sendTotal)
    {
      while |replyList| < MAX_PARALLEL
        invariant Valid() && Fill(r, now) == Fill(old(r), now)
        invariant active == old(active) && sendTotal == old(sendTotal)
        decreases |sendQueue|
      {
        if sendQueue == [] {
          break;
        }
        var record := sendQueue[0].(sequence := sequence, timestamp := now, retries := 0);
        sendQueue := sendQueue[1..];
        sequence := (sequence + 1) % WIRE;
        replyList := replyList + [record];
        r := LaunchOne(r, now);
      }
    }

    /** Without a sender nothing happens; with nothing left in flight the refresh stops; otherwise the timer is armed
        for the moment the head of the list times out. */
    method MaybeSendPings(now: nat)
      requires Valid()
      modifies this
      ensures Valid()
      ensures !old(active) ==> r == old(r) && !active
      ensures old(active) ==>
                var r' := MaybeSend(old(r), now);
                if r'.flying == [] then !active && pingTimeout == None && r == r'.(queue := [])
                else active && r == r' && pingTimeout == Some(r'.flying[0].timestamp + TIMEOUT - now)
    {
      if !active {
        return;
      }
      ExpirePings(now);
      FillWindow(now);
      if replyList == [] {
        Stop();
      } else {
        pingTimeout := Some(TIMEOUT - (now - replyList[0].timestamp));
      }
    }

    /** A reply takes the first record with its sequence number off the list and reports its latency. */
    method RecvPing(wire: nat, now: nat) returns (latency: Option<(Key, int)>)
      requires Valid()
      modifies this
      ensures Valid()
      ensures var i := FindWire(old(r).flying, wire);
              if i == |old(r).flying| then latency == None && r == old(r) && active == old(active)
              else var msec := now - old(r).flying[i].timestamp;
                   latency == if msec <= UINT_MAX then Some((old(r).flying[i].key, msec)) else None
      ensures old(active) && active ==> r == Reply(old(r), wire, now)
      ensures old(active) && !active ==> Reply(old(r), wire, now).flying == []
    {
      var i := FindRecord(wire);
      if i == |replyList| {
        return None;
      }
      var msec := now - replyList[i].timestamp;
      latency := if msec <= UINT_MAX then Some((replyList[i].key, msec)) else None;
      RemoveRecord(i);
      MaybeSendPings(now);
    }

    /** The first record with that sequence number. */
    method FindRecord(wire: nat) returns (i: nat)
      requires Represents(replyList, r.flying)
      ensures i == FindWire(r.flying, wire)
    {
      i := 0;
      while i < |replyList| && replyList[i].sequence != wire
        invariant 0 <= i <= |replyList|
        invariant forall j :: 0 <= j < i ==> replyList[j].sequence != wire
      {
        i := i + 1;
      }
    }

    method RemoveRecord(i: nat)
      requires Valid() && i < |replyList|
      modifies this`replyList, this`r
      ensures Valid() && r == old(r).(flying := RemoveAt(old(r).flying, i))
    {
      replyList := replyList[..i] + replyList[i + 1..];
      r := r.(flying := RemoveAt(r.flying, i));
    }

    /** Queue every server, the closest cities first, and send the first pings. */
    method Start(cities: seq<City>, now: nat)
      requires Valid()
      modifies this
      ensures Valid()
      ensures old(active) ==> r == old(r)
      ensures !old(active) && active ==> r == MaybeSend(Refresh(BuildQueue(cities), [], []), now)
      ensures !old(active) && !active ==> MaybeSend(Refresh(BuildQueue(cities), [], []), now).flying == []
    {
      if active {
        return;
      }
      sequence := 0;
      active := true;
      var c := 0;
      r := Refresh([], [], []);
      while c < |cities|
        invariant 0 <= c <= |cities| && active && sequence == 0 && replyList == []
        invariant r == Refresh(BuildQueue(cities[..c]), [], [])
        invariant Represents(sendQueue, r.queue)
      {
        assert cities[..c + 1][..c] == cities[..c];
        InsertCity(cities[c]);
        c := c + 1;
      }
      assert cities[..c] == cities;
      sendTotal := |sendQueue|;
      MaybeSendPings(now);
    }

    /** The first entry at least as far away as `distance`. */
    method FindPlace(distance: real) returns (i: nat)
      requires Represents(sendQueue, r.queue)
      ensures i == InsertionPoint(r.queue, distance)
    {
      i := 0;
      while i < |sendQueue| && sendQueue[i].distance < distance
        invariant 0 <= i <= |sendQueue|
        invariant forall j :: 0 <= j < i ==> sendQueue[j].distance < distance
      {
        i := i + 1;
      }
    }

    method InsertCity(city: City)
      requires Represents(sendQueue, r.queue)
      modifies this`sendQueue, this`r
      ensures r == old(r).(queue := AddCity(old(r).queue, city)) && Represents(sendQueue, r.queue)
    {
      var i := FindPlace(city.distance);
      ghost var q, mid := r.queue, CityRecords(city.servers[..0], city.distance);
      assert q[..i] + mid + q[i..] == q;
      var s := 0;
      while s < |city.servers|
        invariant 0 <= s <= |city.servers|
        invariant mid == CityRecords(city.servers[..s], city.distance)
        invariant Represents(sendQueue, q[..i] + mid + q[i..])
        invariant r == old(r)
      {
        assert city.servers[..s + 1][..s] == city.servers[..s];
        InsertRepresents(sendQueue, q, mid, i, city.servers[s], city.distance);
        sendQueue := sendQueue[..i] + [Record(city.servers[s], 0, 0, city.distance, 0)] + sendQueue[i..];
        mid := [Ping(city.servers[s], city.distance, 0, 0, 0)] + mid;
        s := s + 1;
      }
      assert city.servers[..s] == city.servers;
      r := r.(queue := q[..i] + mid + q[i..]);
    }
  }

  /** Appending the retry and dropping the head is one timeout. */
  lemma TimeoutRepresents(rs: seq<Record>, r: Refresh, now: nat)
    requires Represents(rs, r.flying) && rs != []
    ensures var retry := rs[0].(retries := rs[0].retries + 1, sequence := |r.log| % WIRE, timestamp := now);
            Represents(if rs[0].retries < MAX_RETRIES then (rs + [retry])[1..] else rs[1..], TimeoutOne(r, now).flying)
  {
    assert RemoveAt(r.flying, 0) == r.flying[1..];
  }

  lemma InsertRepresents(rs: seq<Record>, q: seq<Ping>, mid: seq<Ping>, i: nat, key: Key, distance: real)
    requires i <= |q| && Represents(rs, q[..i] + mid + q[i..])
    ensures Represents(rs[..i] + [Record(key, 0, 0, distance, 0)] + rs[i..],
                       q[..i] + ([Ping(key, distance, 0, 0, 0)] + mid) + q[i..])
  {
    var p := Ping(key, distance, 0, 0, 0);
    var ps := q[..i] + mid + q[i..];
    assert q[..i] + ([p] + mid) + q[i..] == ps[..i] + [p] + ps[i..];
  }
}
