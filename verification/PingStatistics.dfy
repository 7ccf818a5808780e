/** Ping statistics over a ring of the last 32 pings, and the smoothed baseline latency. */
module PingStatistics {
  import opened Common

  const WINDOW := 32
  /** Sequence numbers are 16 bits wide. */
  const WIRE := 65536

  datatype Slot = Slot(timestamp: int, latency: int, sequence: nat)

  const EMPTY := Slot(-1, -1, 0)

  // ---- the unbounded history ----

  /** A ping that was sent; the latency is negative until a reply has come. */
  datatype Ping = Ping(timestamp: int, latency: int)

  function WindowStart(n: nat): nat { if n < WINDOW then 0 else n - WINDOW }

  /** Ping number `h` as a slot holds it. */
  function AsSlot(history: seq<Ping>, h: nat): Slot
    requires h < |history|
  {
    Slot(history[h].timestamp, history[h].latency, h % WIRE)
  }

  /** The last pings in the order they were sent, filled up with empty slots. */
  function Recent(history: seq<Ping>): (r: seq<Slot>)
    ensures |r| == WINDOW
  {
    var start := WindowStart(|history|);
    seq(WINDOW, j requires 0 <= j < WINDOW =>
      if start + j < |history| then AsSlot(history, start + j) else EMPTY)
  }

  /** A reply concerns the ping of that sequence number among the last 32, if there is one. */
  function Answered(history: seq<Ping>, sequence: nat, now: int): (r: seq<Ping>)
    ensures |r| == |history|
  {
    seq(|history|, h requires 0 <= h < |history| =>
      if h >= WindowStart(|history|) && h % WIRE == sequence
      then history[h].(latency := now - history[h].timestamp) else history[h])
  }

  /** At most one ping of the window has a given sequence number. */
  lemma WindowSequencesDistinct(n: nat, g: nat, h: nat)
    requires WindowStart(n) <= g < n && WindowStart(n) <= h < n && g % WIRE == h % WIRE
    ensures g == h
  {
  }

  // ---- statistics of a list of slots ----

  function Sum(s: seq<Slot>, f: Slot -> int): int
  {
    if s == [] then 0 else Sum(s[..|s| - 1], f) + f(s[|s| - 1])
  }

  lemma {:induction false} SumAppend(a: seq<Slot>, b: seq<Slot>, f: Slot -> int)
    ensures Sum(a + b, f) == Sum(a, f) + Sum(b, f)
    decreases |b|
  {
    if b == [] {
      assert a + b == a;
    } else {
      SumAppend(a, b[..|b| - 1], f);
      assert (a + b)[..|a + b| - 1] == a + b[..|b| - 1];
    }
  }

  const GotReply: Slot -> int := (s: Slot) => if s.latency >= 0 then 1 else 0

  const LatencyOf: Slot -> int := (s: Slot) => if s.latency >= 0 then s.latency else 0

  /** One for a ping sent long enough ago that has not been answered. */
  function IsLost(before: int): Slot -> int
  {
    (s: Slot) => if s.latency < 0 && s.timestamp > 0 && s.timestamp < before then 1 else 0
  }

  /** The mean latency of answered pings, rounded to the nearest integer. */
  function MeanLatency(s: seq<Slot>): int
  {
    var n := Sum(s, GotReply);
    if n <= 0 then 0 else (Sum(s, LatencyOf) + n / 2) / n
  }

  const UINT_MAX := 0xffff_ffff

  ghost predicate IsMaximum(s: seq<Slot>, m: int)
  {
    && 0 <= m < UINT_MAX
    && (forall x <- s :: x.latency < UINT_MAX ==> x.latency <= m)
    && (m == 0 || exists x <- s :: x.latency == m)
  }

  function LossRatio(s: seq<Slot>, before: int): real
  {
    Sum(s, IsLost(before)) as real / WINDOW as real
  }

  /** With at least one reply, the rounded mean lies between the extremes and is within half of the exact mean. */
  lemma {:induction false} SumBounds(s: seq<Slot>, lo: int, hi: int)
    requires forall x <- s :: x.latency >= 0 ==> lo <= x.latency <= hi
    ensures Sum(s, GotReply) >= 0
    ensures lo * Sum(s, GotReply) <= Sum(s, LatencyOf) <= hi * Sum(s, GotReply)
    decreases |s|
  {
    if s != [] {
      SumBounds(s[..|s| - 1], lo, hi);
      var n := Sum(s[..|s| - 1], GotReply);
      assert lo * (n + 1) == lo * n + lo && hi * (n + 1) == hi * n + hi;
      assert s[|s| - 1] in s;
    }
  }

  lemma ProductOrder(a: int, b: int, n: int)
    requires a < b && n > 0
    ensures a * n + n <= b * n
  {
    assert (a + 1) * n <= b * n;
  }

  lemma DivideBounds(total: int, n: int, lo: int, hi: int)
    requires n > 0 && lo * n <= total <= hi * n
    ensures lo <= (total + n / 2) / n <= hi
    ensures -n <= 2 * (total - n * ((total + n / 2) / n)) <= n
  {
    var q := (total + n / 2) / n;
    assert total + n / 2 == q * n + (total + n / 2) % n;
    if q < lo {
      ProductOrder(q, lo, n);
      assert false;
    }
    if q > hi {
      ProductOrder(hi, q, n);
      assert false;
    }
  }

  lemma MeanBetweenExtremes(s: seq<Slot>, lo: int, hi: int)
    requires forall x <- s :: x.latency >= 0 ==> lo <= x.latency <= hi
    requires Sum(s, GotReply) > 0
    ensures lo <= MeanLatency(s) <= hi
    ensures var n := Sum(s, GotReply); -n <= 2 * (Sum(s, LatencyOf) - n * MeanLatency(s)) <= n
  {
    SumBounds(s, lo, hi);
    DivideBounds(Sum(s, LatencyOf), Sum(s, GotReply), lo, hi);
  }

  lemma {:induction false} LostBounds(s: seq<Slot>, before: int)
    ensures 0 <= Sum(s, IsLost(before)) <= |s|
    decreases |s|
  {
    if s != [] {
      LostBounds(s[..|s| - 1], before);
    }
  }

  lemma LossIsRatio(s: seq<Slot>, before: int)
    requires |s| == WINDOW
    ensures 0.0 <= LossRatio(s, before) <= 1.0
  {
    LostBounds(s, before);
  }

  lemma {:induction false} SumCounts(s: seq<Slot>, f: Slot -> int, counted: Slot -> bool)
    requires forall x :: f(x) == if counted(x) then 1 else 0
    ensures Sum(s, f) == |set i | 0 <= i < |s| && counted(s[i])|
    decreases |s|
  {
    var all := set i | 0 <= i < |s| && counted(s[i]);
    if s == [] {
      assert all == {};
    } else {
      var n := |s| - 1;
      SumCounts(s[..n], f, counted);
      var before := set i | 0 <= i < |s[..n]| && counted(s[..n][i]);
      assert all == before + if counted(s[n]) then {n} else {};
    }
  }

  /** The loss is the share of the 32 slots whose ping was sent before the given time and has not been answered. */
  lemma LossCounts(s: seq<Slot>, before: int)
    ensures LossRatio(s, before)
         == |set i | 0 <= i < |s| && s[i].latency < 0 && 0 < s[i].timestamp < before| as real / 32.0
  {
    var counted := (x: Slot) => x.latency < 0 && 0 < x.timestamp < before;
    SumCounts(s, IsLost(before), counted);
    assert (set i | 0 <= i < |s| && counted(s[i]))
        == set i | 0 <= i < |s| && s[i].latency < 0 && 0 < s[i].timestamp < before;
  }

  /** The latencies of the answered pings. */
  function Answers(s: seq<Slot>): seq<int>
  {
    if s == [] then []
    else Answers(s[..|s| - 1]) + if s[|s| - 1].latency >= 0 then [s[|s| - 1].latency] else []
  }

  function Total(xs: seq<int>): int { if xs == [] then 0 else Total(xs[..|xs| - 1]) + xs[|xs| - 1] }

  lemma {:induction false} SumsOfAnswers(s: seq<Slot>)
    ensures Sum(s, GotReply) == |Answers(s)| && Sum(s, LatencyOf) == Total(Answers(s))
    decreases |s|
  {
    if s != [] {
      var front, last := s[..|s| - 1], s[|s| - 1];
      SumsOfAnswers(front);
      if last.latency >= 0 {
        assert Answers(s) == Answers(front) + [last.latency];
        assert Answers(s)[..|Answers(s)| - 1] == Answers(front);
      } else {
        assert Answers(s) == Answers(front);
      }
    }
  }

  /** The mean is the one of the answered pings, to the nearest integer. */
  lemma MeanOfAnswers(s: seq<Slot>)
    ensures Answers(s) == [] ==> MeanLatency(s) == 0
    ensures var n: int := |Answers(s)|;
            n > 0 ==> -n <= 2 * (Total(Answers(s)) - n * MeanLatency(s)) <= n
  {
    SumsOfAnswers(s);
    var n := |Answers(s)|;
    if n > 0 {
      RoundedMean(Total(Answers(s)), n);
    }
  }

  lemma RoundedMean(total: int, n: int)
    requires n > 0
    ensures -n <= 2 * (total - n * ((total + n / 2) / n)) <= n
  {
    var q := (total + n / 2) / n;
    assert total + n / 2 == q * n + (total + n / 2) % n;
  }

  // ---- the ring ----

  /** Each recent ping is in the slot of its number modulo 32, and the other slots are empty. */
  ghost predicate Holds(s: seq<Slot>, history: seq<Ping>)
  {
    && |s| == WINDOW
    && (forall h :: WindowStart(|history|) <= h < |history| ==> s[h % WINDOW] == AsSlot(history, h))
    && (forall i :: |history| <= i < WINDOW ==> s[i] == EMPTY)
  }

  /** The recent pings; before the first one, a reply numbered 0 leaves a `stray` latency in the first slot. */
  function Shown(history: seq<Ping>, stray: Option<int>): (r: seq<Slot>)
    ensures |r| == WINDOW
  {
    if history == [] && stray.Some? then Recent([])[0 := EMPTY.(latency := stray.value)] else Recent(history)
  }

  /** The stray latency after a reply: it is measured from the empty slot's time of -1. */
  function StrayAfter(history: seq<Ping>, stray: Option<int>, wire: nat, now: int): Option<int>
  {
    if history == [] && wire == 0 then Some(now + 1) else stray
  }

  ghost predicate HoldsOrStray(s: seq<Slot>, history: seq<Ping>, stray: Option<int>)
  {
    if history == [] && stray.Some? then s == Shown(history, stray) else Holds(s, history)
  }

  lemma NearbyModulo(g: nat, h: nat)
    requires g < h < g + WINDOW
    ensures g % WINDOW != h % WINDOW
  {
  }

  lemma WireIndex(n: nat)
    ensures n % WIRE % WINDOW == n % WINDOW
  {
  }

  lemma SendHolds(s: seq<Slot>, history: seq<Ping>, stray: Option<int>, now: int)
    requires HoldsOrStray(s, history, stray)
    ensures var n := |history|;
            Holds(s[n % WINDOW := Slot(now, -1, n % WIRE)], history + [Ping(now, -1)])
  {
    var n, history' := |history|, history + [Ping(now, -1)];
    var s' := s[n % WINDOW := Slot(now, -1, n % WIRE)];
    forall h | WindowStart(n + 1) <= h < n + 1 ensures s'[h % WINDOW] == AsSlot(history', h) {
      if h < n {
        NearbyModulo(h, n);
        assert s[h % WINDOW] == AsSlot(history, h);
      }
    }
  }

  /** Writing the slot of the wrapped sequence number and counting on. */
  lemma SendRing(s: seq<Slot>, history: seq<Ping>, stray: Option<int>, sequence: nat, now: int)
    requires HoldsOrStray(s, history, stray) && sequence == |history| % WIRE
    ensures |s| == WINDOW
    ensures HoldsOrStray(s[sequence % WINDOW := Slot(now, -1, sequence)], history + [Ping(now, -1)], stray)
    ensures (sequence + 1) % WIRE == |history + [Ping(now, -1)]| % WIRE
  {
    WireIndex(|history|);
    SendHolds(s, history, stray, now);
  }

  /** The recent ping held by slot `i`. */
  lemma Holder(n: nat, i: nat) returns (h: nat)
    requires i < WINDOW && i < n
    ensures WindowStart(n) <= h < n && h % WINDOW == i
  {
    var start := WindowStart(n);
    h := start + (i - start) % WINDOW;
    assert h % WINDOW == i;
  }

  /** Writing the latency into the slot whose sequence number matches answers that ping. */
  lemma MatchHolds(s: seq<Slot>, history: seq<Ping>, wire: nat, now: int)
    requires Holds(s, history) && wire < WIRE && history != [] && s[wire % WINDOW].sequence == wire
    ensures var i := wire % WINDOW;
            Holds(s[i := s[i].(latency := now - s[i].timestamp)], Answered(history, wire, now))
  {
    var n, i := |history|, wire % WINDOW;
    var s', history' := s[i := s[i].(latency := now - s[i].timestamp)], Answered(history, wire, now);
    if i < n {
      var g := Holder(n, i);
      assert s[g % WINDOW] == AsSlot(history, g);
      forall h | WindowStart(n) <= h < n ensures s'[h % WINDOW] == AsSlot(history', h) {
        assert s[h % WINDOW] == AsSlot(history, h);
        if h < g {
          NearbyModulo(h, g);
        } else if g < h {
          NearbyModulo(g, h);
        }
      }
    } else {
      assert false;
    }
  }

  lemma MissHolds(s: seq<Slot>, history: seq<Ping>, wire: nat, now: int)
    requires Holds(s, history) && wire < WIRE && s[wire % WINDOW].sequence != wire
    ensures Answered(history, wire, now) == history
  {
    forall h | WindowStart(|history|) <= h < |history| ensures h % WIRE != wire {
      assert s[h % WINDOW] == AsSlot(history, h);
      WireIndex(h);
    }
  }

  /** The ring is the recent pings, turned: so any sum over it is the sum over them. */
  lemma RingSum(s: seq<Slot>, history: seq<Ping>, f: Slot -> int)
    requires Holds(s, history)
    ensures Sum(s, f) == Sum(Recent(history), f)
    ensures forall x :: x in s <==> x in Recent(history)
  {
    var w := Recent(history);
    if |history| <= WINDOW {
      ShortRing(s, history);
    } else {
      var r := |history| % WINDOW;
      var a, b := w[WINDOW - r..], w[..WINDOW - r];
      TurnedRing(s, history);
      SumAppend(a, b, f);
      SumAppend(b, a, f);
      assert w == b + a;
    }
  }

  lemma ShortRing(s: seq<Slot>, history: seq<Ping>)
    requires Holds(s, history) && |history| <= WINDOW
    ensures s == Recent(history)
  {
    forall j | 0 <= j < WINDOW ensures s[j] == Recent(history)[j] {
      if j < |history| {
        assert s[j % WINDOW] == AsSlot(history, j);
      }
    }
  }

  lemma TurnedSlot(s: seq<Slot>, history: seq<Ping>, i: nat)
    requires Holds(s, history) && |history| > WINDOW && i < WINDOW
    ensures var r := |history| % WINDOW;
            s[i] == Recent(history)[if i < r then WINDOW - r + i else i - r]
  {
    var n := |history|;
    var r := n % WINDOW;
    var j := if i < r then WINDOW - r + i else i - r;
    var h := n - WINDOW + j;
    TurnIndex(n, i, h);
    assert s[h % WINDOW] == AsSlot(history, h);
  }

  lemma TurnedRing(s: seq<Slot>, history: seq<Ping>)
    requires Holds(s, history) && |history| > WINDOW
    ensures var r, w := |history| % WINDOW, Recent(history);
            s == w[WINDOW - r..] + w[..WINDOW - r]
  {
    forall i | 0 <= i < WINDOW ensures var r := |history| % WINDOW;
                                       s[i] == Recent(history)[if i < r then WINDOW - r + i else i - r] {
      TurnedSlot(s, history, i);
    }
  }

  /** The same for what is shown, a stray reply included. */
  lemma ShownSum(s: seq<Slot>, history: seq<Ping>, stray: Option<int>, f: Slot -> int)
    requires HoldsOrStray(s, history, stray)
    ensures Sum(s, f) == Sum(Shown(history, stray), f)
    ensures forall x :: x in s <==> x in Shown(history, stray)
  {
    if !(history == [] && stray.Some?) {
      RingSum(s, history, f);
    }
  }

  /** Before the first ping only a reply numbered 0 changes the ring. */
  lemma StrayReply(s: seq<Slot>, stray: Option<int>, wire: nat, now: int)
    requires HoldsOrStray(s, [], stray) && wire < WIRE
    ensures |s| == WINDOW && (s[wire % WINDOW].sequence == wire <==> wire == 0)
    ensures s[0].timestamp == -1 && s[0 := s[0].(latency := now + 1)] == Shown([], Some(now + 1))
  {
    assert forall i :: 0 <= i < WINDOW ==> s[i].sequence == 0 && (i > 0 ==> s[i] == EMPTY);
  }

  lemma TurnIndex(n: nat, i: nat, h: int)
    requires n > WINDOW && i < WINDOW
    requires var r := n % WINDOW; h == n - WINDOW + if i < r then WINDOW - r + i else i - r
    ensures h % WINDOW == i
  {
  }

  class PingHelper {
    const data: array<Slot>
    var sequence: nat
    ghost var history: seq<Ping>
    ghost var stray: Option<int>

    ghost predicate Valid()
      reads this, data
    {
      sequence == |history| % WIRE && HoldsOrStray(data[..], history, stray)
    }

    constructor ()
      ensures Valid() && history == [] && stray == None && fresh(data)
    {
      data := new Slot[WINDOW](i => EMPTY);
      sequence, history, stray := 0, [], None;
    }

    method Start()
      requires data.Length == WINDOW
      modifies this, data
      ensures Valid() && history == [] && stray == None
    {
      sequence := 0;
      for i := 0 to WINDOW
        invariant sequence == 0
        invariant forall j :: 0 <= j < i ==> data[j] == EMPTY
      {
        data[i] := EMPTY;
      }
      history, stray := [], None;
    }

    method NextPing(now: int)
      requires Valid()
      modifies this, data
      ensures Valid() && history == old(history) + [Ping(now, -1)]
    {
      SendRing(data[..], history, stray, sequence, now);
      ghost var before := data[..];
      var index := sequence % WINDOW;
      data[index] := Slot(now, -1, sequence);
      assert data[..] == before[index := Slot(now, -1, sequence)];
      sequence := (sequence + 1) % WIRE;
      history := history + [Ping(now, -1)];
    }

    /** A reply updates the one recent ping of its sequence number and nothing else; before the first ping, a reply
        numbered 0 leaves a stray latency. */
    method PingReceived(wire: nat, now: int)
      requires Valid() && wire < WIRE
      modifies this, data
      ensures Valid()
      ensures history == Answered(old(history), wire, now)
      ensures stray == StrayAfter(old(history), old(stray), wire, now)
    {
      var index := wire % WINDOW;
      ghost var before := data[..];
      if data[index].sequence == wire {
        data[index] := data[index].(latency := now - data[index].timestamp);
        assert data[..] == before[index := before[index].(latency := now - before[index].timestamp)];
        if history != [] {
          MatchHolds(before, history, wire, now);
        } else {
          StrayReply(before, stray, wire, now);
          stray := Some(now + 1);
        }
        history := Answered(history, wire, now);
      } else if history != [] {
        MissHolds(before, history, wire, now);
      } else {
        StrayReply(before, stray, wire, now);
        assert Answered(history, wire, now) == [];
      }
    }

    method Latency() returns (mean: int)
      requires Valid()
      ensures mean == MeanLatency(Shown(history, stray)) % (UINT_MAX + 1)
    {
      var received, total := 0, 0;
      for i := 0 to data.Length
        invariant received == Sum(data[..i], GotReply) && total == Sum(data[..i], LatencyOf)
      {
        assert data[..i + 1][..i] == data[..i];
        if data[i].latency >= 0 {
          received := received + 1;
          total := total + data[i].latency;
        }
      }
      assert data[..data.Length] == data[..];
      ShownSum(data[..], history, stray, GotReply);
      ShownSum(data[..], history, stray, LatencyOf);
      if received <= 0 {
        return 0;
      }
      total := total + received / 2;
      return total / received % (UINT_MAX + 1);
    }

    method Maximum() returns (max: int)
      requires Valid()
      ensures IsMaximum(Shown(history, stray), max)
    {
      max := 0;
      for i := 0 to data.Length
        invariant IsMaximum(data[..i], max)
      {
        assert data[..i + 1] == data[..i] + [data[i]];
        if data[i].latency >= 0 && data[i].latency > max && data[i].latency < UINT_MAX {
          max := data[i].latency;
        }
      }
      assert data[..data.Length] == data[..];
      ShownSum(data[..], history, stray, GotReply);
    }

    /** `now` less the one-second timeout is when a ping must have been sent to count as lost. */
    method Loss(now: int) returns (loss: real)
      requires Valid()
      ensures loss == LossRatio(Shown(history, stray), now - 1000) && 0.0 <= loss <= 1.0
    {
      var sent, received := 0, 0;
      var sendBefore := now - 1000;
      for i := 0 to data.Length
        invariant received == Sum(data[..i], GotReply)
        invariant sent == received + Sum(data[..i], IsLost(sendBefore)) && 0 <= received <= sent
      {
        assert data[..i + 1][..i] == data[..i];
        if data[i].latency >= 0 {
          received := received + 1;
          sent := sent + 1;
        } else if data[i].timestamp > 0 && data[i].timestamp < sendBefore {
          sent := sent + 1;
        }
      }
      assert data[..data.Length] == data[..];
      ShownSum(data[..], history, stray, IsLost(sendBefore));
      LossIsRatio(Shown(history, stray), sendBefore);
      if sent <= 0 {
        return 0.0;
      }
      return (sent - received) as real / WINDOW as real;
    }
  }
}
