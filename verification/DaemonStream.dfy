/** The daemon connection: newline framing of the byte stream, and the reconnection backoff. */
module DaemonStream {
  import opened Common

  const NEWLINE: byte := 10

  // ---- framing ----

  predicate IsBlank(b: byte) { b == 32 || 9 <= b <= 13 }

  function TrimLeft(s: Bytes): Bytes { if s != [] && IsBlank(s[0]) then TrimLeft(s[1..]) else s }

  function TrimRight(s: Bytes): Bytes
  {
    if s != [] && IsBlank(s[|s| - 1]) then TrimRight(s[..|s| - 1]) else s
  }

  function Trim(s: Bytes): Bytes { TrimRight(TrimLeft(s)) }

  function IndexOf(s: Bytes, b: byte): (i: nat)
    ensures i <= |s|
    ensures i < |s| ==> s[i] == b
    ensures b !in s[..i]
  {
    if s == [] || s[0] == b then 0
    else
      var i := 1 + IndexOf(s[1..], b);
      assert s[..i] == [s[0]] + s[1..][..i - 1];
      i
  }

  /** The newline-terminated lines of a stream, without their newlines. */
  function Lines(s: Bytes): seq<Bytes>
    decreases |s|
  {
    var i := IndexOf(s, NEWLINE);
    if i == |s| then [] else [s[..i]] + Lines(s[i + 1..])
  }

  /** What follows the last newline. */
  function Tail(s: Bytes): Bytes
    decreases |s|
  {
    var i := IndexOf(s, NEWLINE);
    if i == |s| then s else Tail(s[i + 1..])
  }

  /** Lines become commands once trimmed, unless nothing is left of them. */
  function Commands(lines: seq<Bytes>): seq<Bytes>
  {
    if lines == [] then []
    else Commands(lines[..|lines| - 1])
         + if Trim(lines[|lines| - 1]) == [] then [] else [Trim(lines[|lines| - 1])]
  }

  function Unlines(lines: seq<Bytes>): Bytes
  {
    if lines == [] then [] else lines[0] + [NEWLINE] + Unlines(lines[1..])
  }

  lemma {:induction false} IndexOfSplit(a: Bytes, rest: Bytes)
    requires NEWLINE !in a
    ensures IndexOf(a + [NEWLINE] + rest, NEWLINE) == |a|
    decreases |a|
  {
    var s := a + [NEWLINE] + rest;
    if a != [] {
      assert s[1..] == a[1..] + [NEWLINE] + rest && s[0] == a[0];
      IndexOfSplit(a[1..], rest);
    }
  }

  lemma FirstLine(a: Bytes, rest: Bytes)
    requires NEWLINE !in a
    ensures Lines(a + [NEWLINE] + rest) == [a] + Lines(rest) && Tail(a + [NEWLINE] + rest) == Tail(rest)
  {
    var s := a + [NEWLINE] + rest;
    IndexOfSplit(a, rest);
    assert s[..|a|] == a && s[|a| + 1..] == rest;
  }

  lemma NoLine(s: Bytes)
    requires NEWLINE !in s
    ensures Lines(s) == [] && Tail(s) == s
  {
    assert IndexOf(s, NEWLINE) == |s|;
  }

  /** Lines and tail are the one way to cut a stream at its newlines. */
  lemma {:induction false} LinesUnique(lines: seq<Bytes>, tail: Bytes)
    requires (forall l <- lines :: NEWLINE !in l) && NEWLINE !in tail
    ensures Lines(Unlines(lines) + tail) == lines && Tail(Unlines(lines) + tail) == tail
    decreases |lines|
  {
    if lines == [] {
      assert Unlines(lines) + tail == tail;
      NoLine(tail);
    } else {
      LinesUnique(lines[1..], tail);
      assert Unlines(lines) + tail == lines[0] + [NEWLINE] + (Unlines(lines[1..]) + tail);
      FirstLine(lines[0], Unlines(lines[1..]) + tail);
      assert [lines[0]] + lines[1..] == lines;
    }
  }

  lemma UnlinesFirst(line: Bytes, lines: seq<Bytes>, tail: Bytes)
    ensures Unlines([line] + lines) + tail == line + [NEWLINE] + (Unlines(lines) + tail)
  {
    assert ([line] + lines)[1..] == lines;
  }

  lemma {:induction false} LinesCut(s: Bytes)
    ensures s == Unlines(Lines(s)) + Tail(s)
    ensures (forall l <- Lines(s) :: NEWLINE !in l) && NEWLINE !in Tail(s)
    decreases |s|
  {
    var i := IndexOf(s, NEWLINE);
    if i == |s| {
      assert s[..i] == s;
      NoLine(s);
      assert Unlines([]) + s == s;
    } else {
      var line, rest := s[..i], s[i + 1..];
      assert s == line + [NEWLINE] + rest;
      LinesCut(rest);
      UnlinesFirst(line, Lines(rest), Tail(rest));
    }
  }

  // ---- chunks ----

  lemma Associates<T>(a: seq<T>, b: seq<T>, c: seq<T>)
    ensures a + (b + c) == a + b + c
  {
  }

  lemma LinesAppendStep(line: Bytes, rest: Bytes, b: Bytes, a: Bytes)
    requires NEWLINE !in line && a == line + [NEWLINE] + rest
    requires Lines(rest + b) == Lines(rest) + Lines(Tail(rest) + b) && Tail(rest + b) == Tail(Tail(rest) + b)
    ensures Lines(a + b) == Lines(a) + Lines(Tail(a) + b) && Tail(a + b) == Tail(Tail(a) + b)
  {
    FirstLine(line, rest);
    FirstLine(line, rest + b);
    Associates(line + [NEWLINE], rest, b);
    Associates([line], Lines(rest), Lines(Tail(rest) + b));
  }

  lemma {:induction false} LinesAppend(a: Bytes, b: Bytes)
    ensures Lines(a + b) == Lines(a) + Lines(Tail(a) + b) && Tail(a + b) == Tail(Tail(a) + b)
    decreases |a|
  {
    var i := IndexOf(a, NEWLINE);
    if i < |a| {
      var line, rest := a[..i], a[i + 1..];
      assert a == line + [NEWLINE] + rest;
      LinesAppend(rest, b);
      LinesAppendStep(line, rest, b, a);
    } else {
      assert a[..i] == a;
      NoLine(a);
      assert [] + Lines(a + b) == Lines(a + b);
    }
  }

  lemma {:induction false} CommandsAppend(a: seq<Bytes>, b: seq<Bytes>)
    ensures Commands(a + b) == Commands(a) + Commands(b)
    decreases |b|
  {
    if b == [] {
      assert a + b == a;
    } else {
      CommandsAppend(a, b[..|b| - 1]);
      assert (a + b)[..|a + b| - 1] == a + b[..|b| - 1];
    }
  }

  function Concat(chunks: seq<Bytes>): Bytes
  {
    if chunks == [] then [] else Concat(chunks[..|chunks| - 1]) + chunks[|chunks| - 1]
  }

  /** Commands handed over for each chunk in turn, the buffer being `buffer` at the start. */
  function Delivered(buffer: Bytes, chunks: seq<Bytes>): (seq<Bytes>, Bytes)
  {
    if chunks == [] then ([], buffer)
    else
      var (cmds, kept) := Delivered(buffer, chunks[..|chunks| - 1]);
      var input := kept + chunks[|chunks| - 1];
      (cmds + Commands(Lines(input)), Tail(input))
  }

  /** However the stream is cut into chunks, the commands are the non-blank trimmed lines of the whole, and the
      buffer is its newline-free tail. */
  lemma {:induction false} ChunkingIrrelevant(chunks: seq<Bytes>)
    ensures var (cmds, kept) := Delivered([], chunks);
            cmds == Commands(Lines(Concat(chunks))) && kept == Tail(Concat(chunks)) && NEWLINE !in kept
    decreases |chunks|
  {
    if chunks != [] {
      var front, last := chunks[..|chunks| - 1], chunks[|chunks| - 1];
      ChunkingIrrelevant(front);
      LinesAppend(Concat(front), last);
      CommandsAppend(Lines(Concat(front)), Lines(Tail(Concat(front)) + last));
    }
    LinesCut(Concat(chunks));
  }

  /** Written messages: the payload and a newline. */
  function Frames(messages: seq<Bytes>): Bytes { Unlines(messages) }

  predicate IsPayload(m: Bytes) { m != [] && NEWLINE !in m && Trim(m) == m }

  lemma {:induction false} CommandsOfPayloads(messages: seq<Bytes>)
    requires forall m <- messages :: IsPayload(m)
    ensures Commands(messages) == messages
    decreases |messages|
  {
    if messages != [] {
      CommandsOfPayloads(messages[..|messages| - 1]);
      assert IsPayload(messages[|messages| - 1]);
      assert messages == messages[..|messages| - 1] + [messages[|messages| - 1]];
    }
  }

  /** Messages written by one side are read back as they were, in any chunks. */
  lemma FramingRoundTrip(messages: seq<Bytes>, chunks: seq<Bytes>)
    requires forall m <- messages :: IsPayload(m)
    requires Concat(chunks) == Frames(messages)
    ensures Delivered([], chunks) == (messages, [])
  {
    ChunkingIrrelevant(chunks);
    assert Unlines(messages) + [] == Unlines(messages);
    LinesUnique(messages, []);
    CommandsOfPayloads(messages);
  }

  // ---- trimming ----

  /** Spaces, tabs, line feeds, vertical tabs, form feeds and carriage returns. */
  ghost predicate OnlySpace(s: Bytes) { forall b <- s :: b in {9, 10, 11, 12, 13, 32} }

  lemma {:induction false} TrimLeftMeaning(s: Bytes) returns (front: Bytes)
    ensures s == front + TrimLeft(s) && OnlySpace(front)
    ensures TrimLeft(s) != [] ==> TrimLeft(s)[0] !in {9, 10, 11, 12, 13, 32}
    decreases |s|
  {
    front := [];
    if s != [] && IsBlank(s[0]) {
      var rest := TrimLeftMeaning(s[1..]);
      front := [s[0]] + rest;
      assert s == [s[0]] + s[1..];
    }
  }

  lemma {:induction false} TrimRightMeaning(s: Bytes) returns (back: Bytes)
    ensures s == TrimRight(s) + back && OnlySpace(back)
    ensures TrimRight(s) != [] ==> TrimRight(s)[|TrimRight(s)| - 1] !in {9, 10, 11, 12, 13, 32}
    decreases |s|
  {
    back := [];
    if s != [] && IsBlank(s[|s| - 1]) {
      var rest := TrimRightMeaning(s[..|s| - 1]);
      back := rest + [s[|s| - 1]];
      assert s == s[..|s| - 1] + [s[|s| - 1]];
    }
  }

  /** Trimming takes space off both ends, and all of it. */
  lemma TrimMeaning(s: Bytes) returns (front: Bytes, back: Bytes)
    ensures s == front + Trim(s) + back && OnlySpace(front) && OnlySpace(back)
    ensures Trim(s) != [] ==> Trim(s)[0] !in {9, 10, 11, 12, 13, 32}
                              && Trim(s)[|Trim(s)| - 1] !in {9, 10, 11, 12, 13, 32}
  {
    front := TrimLeftMeaning(s);
    back := TrimRightMeaning(TrimLeft(s));
    assert s == front + (Trim(s) + back) == front + Trim(s) + back;
    if Trim(s) != [] {
      assert Trim(s)[0] == TrimLeft(s)[0];
    }
  }

  // ---- what a broken connection leaves behind ----

  predicate AllBlank(s: Bytes) { forall b <- s :: IsBlank(b) }

  lemma {:induction false} TrimLeftBlank(a: Bytes, b: Bytes)
    requires AllBlank(a)
    ensures TrimLeft(a + b) == TrimLeft(b)
    decreases |a|
  {
    if a == [] {
      assert a + b == b;
    } else {
      assert (a + b)[1..] == a[1..] + b && (a + b)[0] == a[0] && a[0] in a;
      TrimLeftBlank(a[1..], b);
    }
  }

  lemma {:induction false} TrimIsBlank(s: Bytes)
    ensures Trim(s) == [] <==> AllBlank(s)
    decreases |s|
  {
    if s != [] && IsBlank(s[0]) {
      TrimIsBlank(s[1..]);
      assert s == [s[0]] + s[1..];
    } else if s != [] {
      assert s[0] in s;
      TrimRightKeepsHead(s);
    }
  }

  lemma {:induction false} TrimRightKeepsHead(s: Bytes)
    requires s != [] && !IsBlank(s[0])
    ensures TrimRight(s) != []
    decreases |s|
  {
    if IsBlank(s[|s| - 1]) {
      assert |s| > 1;
      TrimRightKeepsHead(s[..|s| - 1]);
    }
  }

  lemma CommandsOfOne(line: Bytes)
    ensures Commands([line]) == if Trim(line) == [] then [] else [Trim(line)]
  {
    assert [line][..0] == [];
  }

  lemma CommandsOfFirst(line: Bytes, rest: Bytes)
    requires NEWLINE !in line
    ensures Commands(Lines(line + [NEWLINE] + rest))
         == (if Trim(line) == [] then [] else [Trim(line)]) + Commands(Lines(rest))
  {
    FirstLine(line, rest);
    CommandsAppend([line], Lines(rest));
    CommandsOfOne(line);
  }

  lemma CutAtNewline(stream: Bytes) returns (line: Bytes, rest: Bytes)
    requires NEWLINE in stream
    ensures NEWLINE !in line && stream == line + [NEWLINE] + rest
  {
    var i := IndexOf(stream, NEWLINE);
    assert stream[..|stream|] == stream;
    line, rest := stream[..i], stream[i + 1..];
  }

  lemma BlankBeforeLine(left: Bytes, line: Bytes, rest: Bytes)
    requires NEWLINE !in left && NEWLINE !in line && AllBlank(left)
    ensures Commands(Lines(left + (line + [NEWLINE] + rest))) == Commands(Lines(line + [NEWLINE] + rest))
  {
    assert left + (line + [NEWLINE] + rest) == (left + line) + [NEWLINE] + rest;
    TrimLeftBlank(left, line);
    CommandsOfFirst(line, rest);
    CommandsOfFirst(left + line, rest);
  }

  lemma BlankLeftoverHarmless(left: Bytes, stream: Bytes)
    requires NEWLINE !in left && AllBlank(left)
    ensures Commands(Lines(left + stream)) == Commands(Lines(stream))
  {
    if NEWLINE !in stream {
      NoLine(stream);
      NoLine(left + stream);
    } else {
      var line, rest := CutAtNewline(stream);
      BlankBeforeLine(left, line, rest);
    }
  }

  /** The buffer outlives a broken connection: what it holds is harmless to every later stream exactly when it is
      blank. */
  lemma LeftoverHarmless(left: Bytes)
    requires NEWLINE !in left
    ensures (forall stream :: Commands(Lines(left + stream)) == Commands(Lines(stream))) <==> AllBlank(left)
  {
    if AllBlank(left) {
      forall stream ensures Commands(Lines(left + stream)) == Commands(Lines(stream)) {
        BlankLeftoverHarmless(left, stream);
      }
    } else {
      var none: Bytes := [];
      var stream := none + [NEWLINE] + none;
      TrimIsBlank(left);
      NoLine(none);
      FirstLine(left, none);
      FirstLine(none, none);
      assert left + stream == left + [NEWLINE] + none;
      assert [left] + Lines(none) == [left] && [none] + Lines(none) == [none];
      CommandsOfOne(left);
      CommandsOfOne(none);
      assert |Commands(Lines(left + stream))| != |Commands(Lines(stream))|;
    }
  }

  // ---- backoff ----

  const RETRY_INITIAL := 500
  const RETRY_MAXIMUM := 16000

  datatype DaemonState = Unknown | Initializing | Ready

  /** How far the client is with finding the daemon; `timer` is the delay the retry timer was last armed with. */
  datatype Link = Link(state: DaemonState, interval: int, timer: Option<int>)

  const NEW_LINK := Link(Unknown, RETRY_INITIAL, None)

  /** A status reply: whether the tunnel is up, if it says so, and since when, if it gives a valid date. */
  datatype Status = Status(connected: Option<bool>, date: Option<nat>)

  datatype LinkEvent = Initialize | TimerFires | Lost | Reported(status: Status) | TunnelClosed
  {
    predicate IsAttempt() { Initialize? || TimerFires? }
  }

  function NextInterval(state: DaemonState, interval: int): int
  {
    if state != Initializing then RETRY_INITIAL
    else if interval < RETRY_MAXIMUM then 2 * interval
    else interval
  }

  function LinkStep(l: Link, e: LinkEvent): Link
  {
    match e
    case Initialize => l.(state := Initializing, interval := NextInterval(l.state, l.interval))
    case TimerFires => Link(Initializing, NextInterval(l.state, l.interval), None)
    case Lost => l.(timer := Some(l.interval))
    case Reported(_) => if l.state.Initializing? then l.(state := Ready) else l
    case TunnelClosed => if l.state.Ready? then l.(timer := None) else l
  }

  /** What a status tells the controller: it is announced once, and only if it is well formed. */
  function Announced(state: DaemonState, status: Status): Option<(bool, Option<nat>)>
  {
    if !state.Initializing? || status.connected.None? then None
    else if !status.connected.value then Some((false, None))
    else if status.date.None? then None
    else Some((true, status.date))
  }

  predicate LinkEnabled(l: Link, e: LinkEvent)
  {
    match e
    case Initialize => l.state.Unknown?
    case TimerFires => l.timer.Some?
    case _ => true
  }

  ghost predicate LinkStepAt(ls: seq<Link>, es: seq<LinkEvent>, i: nat)
    requires |ls| == |es| + 1 && i < |es|
  {
    LinkEnabled(ls[i], es[i]) && ls[i + 1] == LinkStep(ls[i], es[i])
  }

  ghost predicate IsLinkRun(ls: seq<Link>, es: seq<LinkEvent>)
  {
    |ls| == |es| + 1 && ls[0] == NEW_LINK && forall i :: 0 <= i < |es| ==> LinkStepAt(ls, es, i)
  }

  /** A status has come since the last attempt. */
  predicate Found(es: seq<LinkEvent>, n: nat)
    requires n <= |es|
  {
    n > 0 && (es[n - 1].Reported? || (!es[n - 1].IsAttempt() && Found(es, n - 1)))
  }

  /** Attempts made in a row, up to the last one, without a status in between. */
  function Attempts(es: seq<LinkEvent>, n: nat): nat
    requires n <= |es|
  {
    if n == 0 then 0
    else if !es[n - 1].IsAttempt() then Attempts(es, n - 1)
    else if Found(es, n - 1) then 1
    else Attempts(es, n - 1) + 1
  }

  function Pow2(n: nat): nat { if n == 0 then 1 else 2 * Pow2(n - 1) }

  /** Half a second, doubled for every attempt after the first, up to sixteen seconds. */
  function Delay(attempts: nat): int
  {
    if attempts <= 1 then RETRY_INITIAL
    else if attempts <= 5 then RETRY_INITIAL * Pow2(attempts - 1)
    else RETRY_MAXIMUM
  }

  lemma DelayDoubles(attempts: nat)
    requires attempts > 0
    ensures Delay(attempts + 1) == if Delay(attempts) < RETRY_MAXIMUM then 2 * Delay(attempts) else Delay(attempts)
    ensures Delay(attempts) == RETRY_INITIAL <==> attempts == 1
  {
    assert Pow2(1) == 2 && Pow2(2) == 4 && Pow2(3) == 2 * Pow2(2) && Pow2(4) == 2 * Pow2(3);
    assert attempts <= 1 || attempts == 2 || attempts == 3 || attempts == 4 || attempts == 5 || attempts > 5;
  }

  /** In every run the delay in force is the one of the attempts made in a row, and it is what every loss of the
      daemon arms the retry timer with. */
  lemma {:induction false} BackoffDoublesToMaximum(ls: seq<Link>, es: seq<LinkEvent>, n: nat)
    requires IsLinkRun(ls, es) && n <= |es|
    ensures ls[n].interval == Delay(Attempts(es, n))
    ensures ls[n].state == if Attempts(es, n) == 0 then Unknown else if Found(es, n) then Ready else Initializing
    ensures n > 0 && es[n - 1].Lost? ==> ls[n].timer == Some(Delay(Attempts(es, n)))
    decreases n
  {
    if n > 0 {
      BackoffDoublesToMaximum(ls, es, n - 1);
      assert LinkStepAt(ls, es, n - 1);
      if Attempts(es, n - 1) > 0 {
        DelayDoubles(Attempts(es, n - 1));
      }
    }
  }

  /** The retry timer runs: the daemon was lost, and since then it has neither fired nor been stopped by a ready daemon
      that closed its tunnel. */
  predicate Armed(es: seq<LinkEvent>, n: nat)
    requires n <= |es|
  {
    n > 0 && (es[n - 1].Lost?
              || (!es[n - 1].TimerFires? && !(es[n - 1].TunnelClosed? && Attempts(es, n - 1) > 0 && Found(es, n - 1))
                  && Armed(es, n - 1)))
  }

  lemma {:induction false} TimerRunsExactly(ls: seq<Link>, es: seq<LinkEvent>, n: nat)
    requires IsLinkRun(ls, es) && n <= |es|
    ensures ls[n].timer.Some? <==> Armed(es, n)
    decreases n
  {
    if n > 0 {
      TimerRunsExactly(ls, es, n - 1);
      BackoffDoublesToMaximum(ls, es, n - 1);
      assert LinkStepAt(ls, es, n - 1);
    }
  }

  /** A status is announced exactly if it is the first one, says whether the tunnel is up, and gives a valid date if it
      is; the date is passed on only then. */
  lemma AnnouncedExactly(state: DaemonState, status: Status, up: bool, since: Option<nat>)
    ensures Announced(state, status) == Some((up, since))
       <==> && state == Initializing && status.connected == Some(up)
            && (up ==> since.Some? && since == status.date) && (!up ==> since == None)
  {
  }

  /** After losing a daemon that had answered, the first delay is the initial one exactly when the daemon had answered
      the first attempt; otherwise it is left over from the attempts it took to find it. */
  lemma FirstDelayAfterLoss(ls: seq<Link>, es: seq<LinkEvent>, n: nat)
    requires IsLinkRun(ls, es) && n < |es| && es[n].Lost? && ls[n].state.Ready?
    ensures ls[n + 1].timer == Some(RETRY_INITIAL) <==> Attempts(es, n) == 1
  {
    BackoffDoublesToMaximum(ls, es, n);
    BackoffDoublesToMaximum(ls, es, n + 1);
    DelayDoubles(Attempts(es, n));
  }

  /** The first attempt and `failures` more, each after a loss. */
  function Struggle(failures: nat): Link
  {
    if failures == 0 then LinkStep(NEW_LINK, Initialize)
    else LinkStep(LinkStep(Struggle(failures - 1), Lost), TimerFires)
  }

  lemma {:induction false} StruggleDelay(failures: nat)
    ensures Struggle(failures).state.Initializing? && Struggle(failures).interval == Delay(failures + 1)
  {
    if failures > 0 {
      StruggleDelay(failures - 1);
      DelayDoubles(failures);
    }
  }

  /** A daemon found after five failed attempts and then lost is next tried sixteen seconds later. */
  lemma StaleDelayAfterLoss(status: Status)
    ensures LinkStep(LinkStep(Struggle(5), Reported(status)), Lost).timer == Some(RETRY_MAXIMUM)
  {
    StruggleDelay(5);
  }

  // ---- the connection ----

  class Connection {
    var buffer: Bytes
    var state: DaemonState
    var interval: int
    var retryTimer: Option<int>

    ghost function View(): Link
      reads this
    {
      Link(state, interval, retryTimer)
    }

    constructor ()
      ensures buffer == [] && View() == NEW_LINK
    {
      buffer, state, interval, retryTimer := [], Unknown, RETRY_INITIAL, None;
    }

    /** Append what has arrived and hand over every complete command. */
    method ReadData(input: Bytes) returns (commands: seq<Bytes>)
      modifies this`buffer
      ensures commands == Commands(Lines(old(buffer) + input))
      ensures buffer == Tail(old(buffer) + input)
    {
      buffer := buffer + input;
      commands := [];
      ghost var done: seq<Bytes>, all := [], buffer;
      assert [] + Lines(all) == Lines(all);
      while true
        invariant Lines(all) == done + Lines(buffer) && Tail(all) == Tail(buffer)
        invariant commands == Commands(done)
        decreases |buffer|
      {
        var pos := IndexOf(buffer, NEWLINE);
        if pos == |buffer| {
          break;
        }
        var line := buffer[..pos];
        Associates(done, [line], Lines(buffer[pos + 1..]));
        assert (done + [line])[..|done|] == done;
        buffer := buffer[pos + 1..];
        done := done + [line];
        var command := Trim(line);
        if command == [] {
          continue;
        }
        commands := commands + [command];
      }
      assert done + [] == done;
    }

    /** Connect, or try again. */
    method InitializeInternal()
      modifies this`state, this`interval
      ensures View() == old(View()).(state := Initializing, interval := NextInterval(old(state), old(interval)))
    {
      if state != Initializing {
        interval := RETRY_INITIAL;
      } else if interval < RETRY_MAXIMUM {
        interval := interval * 2;
      }
      state := Initializing;
    }

    /** Losing the daemon is reported once it had been found, and arms the retry timer either way. */
    method ErrorOccurred() returns (disconnected: bool)
      modifies this`retryTimer
      ensures disconnected == (state != Initializing)
      ensures View() == LinkStep(old(View()), Lost)
    {
      disconnected := state != Initializing;
      retryTimer := Some(interval);
    }

    /** The first status makes the daemon ready, well formed or not; it is announced only if well formed. */
    method StatusReceived(status: Status) returns (announced: Option<(bool, Option<nat>)>)
      modifies this`state
      ensures View() == LinkStep(old(View()), Reported(status))
      ensures announced == Announced(old(state), status)
    {
      if state != Initializing {
        return None;
      }
      state := Ready;
      if status.connected == None {
        return None;
      }
      var date: Option<nat> := None;
      if status.connected.value {
        if status.date == None {
          return None;
        }
        date := status.date;
      }
      return Some((status.connected.value, date));
    }

    /** The daemon reports the tunnel down; it is still there, and no retry is needed. */
    method DisconnectedReceived()
      modifies this`state, this`retryTimer
      ensures View() == LinkStep(old(View()), TunnelClosed)
    {
      if state != Ready {
        return;
      }
      state := Ready;
      retryTimer := None;
    }

    /** Any event of the link, at any time it can happen. */
    method HandleLink(e: LinkEvent)
      requires LinkEnabled(View(), e)
      modifies this`state, this`interval, this`retryTimer
      ensures View() == LinkStep(old(View()), e)
    {
      match e {
        case Initialize => InitializeInternal();
        case TimerFires =>
          retryTimer := None;
          InitializeInternal();
        case Lost => var _ := ErrorOccurred();
        case Reported(status) => var _ := StatusReceived(status);
        case TunnelClosed => DisconnectedReceived();
      }
    }
  }
}
