/** When a session keeps its start time across server switches, retries and reconnects. */
module ControllerSessions {
  import opened Common
  import opened ControllerTypes
  import opened ControllerSpec
  import opened ControllerRuns

  // ---- one event ----

  predicate InSession(s: Snapshot, start: nat)
  {
    (s.state.IsOn() || s.state.IsSwitching()) && s.connectedTime == Some(start)
  }

  predicate SessionEvent(e: Event)
  {
    e.SwitchServers? || e.SilentSwitchServers? || e.HandshakeTimeout? || e.HandshakeCompleted? || e.TunnelDown?
  }

  /** An attempt made in `state` stays inside the session. */
  predicate AttemptStays(state: State, initiator: Principal, setup: Setup)
  {
    match setup
    case NoServer => false
    case NoDevice => true
    case Hops(_) => state.IsSwitching() || initiator.ExtensionUser?
  }

  /** What must hold before an event for it to leave the session, and its start time, alone. */
  predicate KeepsSession(s: Snapshot, e: Event)
    requires SessionEvent(e)
  {
    match e
    case SwitchServers(data, env) =>
      || (env.multihopBackend && data.multihop != s.serverData.multihop)
      || !SetupConfigs(env, data.multihop, s.initiator, false).NoServer?
    case SilentSwitchServers(needed, n, env) =>
      || !s.state.On?
      || (needed && n <= 1)
      || !SetupConfigs(env, s.serverData.multihop, s.initiator, false).NoServer?
    case HandshakeTimeout(env) =>
      && !env.hasProfiles
      && if s.nextStep.EndsSession() then s.state.IsSwitching()
         else s.retry + 1 < MAX_RETRY && AttemptStays(s.state, s.initiator, RetrySetup(s, env))
    case HandshakeCompleted(key, env) =>
      if s.queue != [] && key == s.queue[0].key && |s.queue| > 1 then
        s.state.IsSwitching() || s.initiator.ExtensionUser? || !(env.hasProfiles || env.device)
      else if key == (if s.queue == [] then s.serverData.exitKey else s.queue[0].key) then
        s.state.IsSwitching() && !s.nextStep.EndsSession()
      else true
    case TunnelDown(env) =>
      && s.nextStep.Reconnect?
      && AttemptStays(s.state, s.initiator,
                      SetupConfigs(env, s.nextServerData.multihop, s.initiator, false))
    case _ => true
  }

  lemma SessionSwitch(s: Snapshot, e: Event, start: nat)
    requires InSession(s, start) && e.SwitchServers?
    ensures InSession(Switched(s, e.data, e.env), start) <==> KeepsSession(s, e)
  {
    if e.env.multihopBackend && e.data.multihop != s.serverData.multihop {
    } else {
    }
  }

  lemma SessionSilentSwitch(s: Snapshot, e: Event, start: nat)
    requires InSession(s, start) && e.SilentSwitchServers?
    ensures InSession(SilentlySwitched(s, e.cooldownNeeded, e.exitServers, e.env), start) <==> KeepsSession(s, e)
  {
  }

  lemma SessionTimeout(s: Snapshot, e: Event, start: nat)
    requires InSession(s, start) && e.HandshakeTimeout?
    ensures InSession(TimedOut(s, e.env), start) <==> KeepsSession(s, e)
  {
    if e.env.hasProfiles {
    } else if s.nextStep.EndsSession() {
    } else if s.retry + 1 < MAX_RETRY {
    } else {
    }
  }

  lemma SessionHandshake(s: Snapshot, e: Event, start: nat)
    requires InSession(s, start) && e.HandshakeCompleted? && e.env.now != start
    ensures InSession(Connected(s, e.key, e.env), start) <==> KeepsSession(s, e)
  {
    if s.queue == [] {
    } else if s.queue[0].key != e.key {
    } else if |s.queue| > 1 {
    } else {
    }
  }

  lemma SessionTunnelDown(s: Snapshot, e: Event, start: nat)
    requires InSession(s, start) && e.TunnelDown?
    ensures InSession(Disconnected(s, e.env), start) <==> KeepsSession(s, e)
  {
  }

  /** One event keeps the session exactly when its guard holds (a reset clock is a later clock). */
  lemma SessionStep(s: Snapshot, e: Event, start: nat)
    requires InSession(s, start) && SessionEvent(e)
    requires e.env.now != start
    ensures InSession(Step(s, e), start) <==> KeepsSession(s, e)
  {
    match e
    case HandshakeTimeout(_) => SessionTimeout(s, e, start);
    case HandshakeCompleted(_, _) => SessionHandshake(s, e, start);
    case TunnelDown(_) => SessionTunnelDown(s, e, start);
    case SwitchServers(_, _) => SessionSwitch(s, e, start);
    case SilentSwitchServers(_, _, _) => SessionSilentSwitch(s, e, start);
  }

  // ---- whole runs ----

  /** What a session is doing, as far as the events since its start tell: whether a switch is under way, to which
      location, the hops that have yet to answer, the retries made for them, and what is due once the tunnel is down:
      `Reconnect` at the location `next`, or `Disconnect` because a device was missing. */
  datatype Phase = Phase(
    initiator: Principal,
    at: ServerData,
    next: ServerData,
    switching: bool,
    hops: seq<Key>,
    tries: nat,
    pending: NextStep)
  {
    /** Waiting is enough to be on again: neither is a disconnection due for good, nor a reconnect without a switch. */
    predicate OnCourse() { pending.NoStep? || (pending.Reconnect? && switching) }
  }

  /** The servers brought up for a location, in order. */
  datatype Dialling = Dialled(keys: seq<Key>) | ServerMissing | DeviceMissing

  function DialKeys(env: Env, multihop: bool): (r: Dialling)
    ensures r.Dialled? ==> 1 <= |r.keys| <= 2
  {
    if env.exit.None? then ServerMissing
    else if !env.device then DeviceMissing
    else if !env.multihopFeature || !multihop then Dialled([env.exit.value.server.publicKey])
    else if env.entry.None? then ServerMissing
    else if env.multihopBackend then
      Dialled([env.entry.value.server.publicKey, env.exit.value.server.publicKey])
    else Dialled([env.exit.value.server.publicKey])
  }

  /** Bring the location up; the session goes on unless a server is missing. */
  function Dial(p: Phase, env: Env, tries: nat): Option<Phase>
  {
    match DialKeys(env, p.at.multihop)
    case ServerMissing => None
    case DeviceMissing => Some(p.(hops := [], tries := tries, pending := Disconnect))
    case Dialled(ks) =>
      Some(p.(at := p.at.(entryKey := ks[0], exitKey := ks[|ks| - 1]), hops := ks, tries := tries))
  }

  /** All hops are up: fine for a switch, unless a disconnection is due; out of a switch the start time is reset. */
  function Finish(p: Phase): Option<Phase>
  {
    if !p.switching || p.pending.Disconnect? then None
    else Some(p.(switching := false, hops := [], tries := 0))
  }

  /** The tunnel is down: only a switch survives that, and only to reconnect. */
  function BringBack(p: Phase, env: Env): Option<Phase>
  {
    if !p.pending.Reconnect? then None
    else
      var q := p.(at := p.next, hops := [], tries := 0, pending := NoStep);
      if !p.switching && DialKeys(env, q.at.multihop).Dialled? then None else Dial(q, env, 0)
  }

  /** How an event moves a session on, or `None` if it ends it or resets its start time (or is a request to end or
      replace it). */
  function Follow(p: Phase, e: Event): Option<Phase>
  {
    match e
    case SwitchServers(data, env) =>
      if env.multihopBackend && data.multihop != p.at.multihop
      then Some(p.(next := data, switching := true, hops := [], tries := 0, pending := Reconnect))
      else Dial(p.(at := data, next := data, switching := true), env, 0)
    case SilentSwitchServers(needed, n, env) =>
      if p.switching || (needed && n <= 1) then Some(p) else Dial(p.(switching := true), env, 0)
    case HandshakeTimeout(env) =>
      if env.hasProfiles then None
      else if p.pending.Disconnect? then Some(p.(hops := [], tries := 0))
      else if p.tries + 1 >= MAX_RETRY then None
      else Dial(p, env, p.tries + 1)
    case HandshakeCompleted(key, env) =>
      if p.hops == [] then if key == p.at.exitKey then Finish(p) else Some(p)
      else if key != p.hops[0] then Some(p)
      else if |p.hops| > 1 then Some(p.(hops := p.hops[1..]))
      else Finish(p)
    case TunnelDown(env) => BringBack(p, env)
    case Deactivate(user) => if p.initiator.Rank() > user.Rank() then Some(p) else None
    case ActivateServers(_, _, _) => if p.switching then None else Some(p)
    case ActivateProfile(_, _, _) => if p.switching then None else Some(p)
    case BackendFailure(_) => Some(p)
    case PortalPresent => Some(p)
    case PortalGone => Some(p)
    case _ => None
  }

  function Keys(hops: seq<Config>): (ks: seq<Key>)
    ensures |ks| == |hops|
  {
    seq(|hops|, i requires 0 <= i < |hops| => hops[i].key)
  }

  /** The controller is where the session's phase says, and the start time is the original one. */
  ghost predicate Tracks(p: Phase, s: Snapshot, start: nat)
  {
    && s.initiator == p.initiator && !p.initiator.ExtensionUser?
    && s.connectedTime == Some(start)
    && s.serverData == p.at && (p.pending.Reconnect? ==> s.nextServerData == p.next)
    && s.nextStep == p.pending && (p.pending.NoStep? || p.pending.Reconnect? || p.pending.Disconnect?)
    && Keys(s.queue) == p.hops && s.retry == p.tries
    && (s.timer ==> p.hops != [])
    && (if p.switching then s.state.IsSwitching() else s.state.On? && p.hops == [])
    && (p.switching && p.pending.NoStep? ==> p.hops != [])
  }

  lemma DialMeaning(env: Env, multihop: bool, initiator: Principal, forceDns: bool)
    ensures match SetupConfigs(env, multihop, initiator, forceDns)
            case Hops(hops) => DialKeys(env, multihop) == Dialled(Keys(hops))
            case NoServer => DialKeys(env, multihop) == ServerMissing
            case NoDevice => DialKeys(env, multihop) == DeviceMissing
  {
    var setup := SetupConfigs(env, multihop, initiator, forceDns);
    if setup.Hops? {
      assert DialKeys(env, multihop).keys == Keys(setup.hops);
    }
  }

  /** What the phase says before a location is brought up, the hops being about to be replaced. */
  ghost predicate Ready(p: Phase, s: Snapshot, start: nat)
  {
    && s.initiator == p.initiator && !p.initiator.ExtensionUser?
    && s.connectedTime == Some(start)
    && s.serverData == p.at && (p.pending.Reconnect? ==> s.nextServerData == p.next)
    && s.nextStep == p.pending && (p.pending.NoStep? || p.pending.Reconnect? || p.pending.Disconnect?)
    && (if p.switching then s.state.IsSwitching() else s.state.On?)
  }

  /** Bringing a location up dials it; the session is lost exactly when a server is missing. */
  lemma RestartTracks(p: Phase, s: Snapshot, forceDns: bool, env: Env, start: nat)
    requires Ready(p, s, start) && (p.switching || !DialKeys(env, p.at.multihop).Dialled?)
    ensures var q, r := Dial(p, env, s.retry), Restart(s, forceDns, s.initiator, env);
            if q.None? then !InSession(r, start) else Tracks(q.value, r, start)
  {
    DialMeaning(env, s.serverData.multihop, s.initiator, forceDns);
    var setup := SetupConfigs(env, s.serverData.multihop, s.initiator, forceDns);
    match setup
    case Hops(hops) =>
      assert Keys(hops)[0] == hops[0].key && Keys(hops)[|hops| - 1] == hops[|hops| - 1].key;
    case NoServer =>
    case NoDevice =>
      assert Keys([]) == [];
  }

  /** The event, handled at time `now`, leaves the controller where the phase says next; if there is no next phase it
      ends the session or sets its start time to `now`. */
  ghost predicate Agrees(q: Option<Phase>, s: Snapshot, start: nat, now: nat)
  {
    if q.None? then now != start ==> !InSession(s, start) else Tracks(q.value, s, start)
  }

  lemma SwitchTracks(p: Phase, s: Snapshot, e: Event, start: nat)
    requires Tracks(p, s, start) && e.SwitchServers?
    ensures Agrees(Follow(p, e), Switched(s, e.data, e.env), start, e.env.now)
  {
    var s1 := s.(nextServerData := e.data, retry := 0, state := Switching);
    if e.env.multihopBackend && e.data.multihop != s.serverData.multihop {
      assert Switched(s, e.data, e.env) == Deactivated(s1.(nextStep := Reconnect), ClientUser);
      ReconnectTracks(p, s, s1.(nextStep := Reconnect), e.data, start);
    } else {
      assert Switched(s, e.data, e.env) == Restart(s1.(serverData := e.data), false, s.initiator, e.env);
      RedialTracks(p, s, s1.(serverData := e.data), e.data, e.env, start);
    }
  }

  lemma RedialTracks(p: Phase, s: Snapshot, s1: Snapshot, data: ServerData, env: Env, start: nat)
    requires Tracks(p, s, start)
    requires s1 == s.(nextServerData := data, serverData := data, retry := 0, state := Switching)
    ensures Agrees(Dial(p.(at := data, next := data, switching := true), env, 0),
                   Restart(s1, false, s.initiator, env), start, env.now)
  {
    RestartTracks(p.(at := data, next := data, switching := true), s1, false, env, start);
  }

  /** Taking the tunnel down to bring it up again elsewhere. */
  lemma ReconnectTracks(p: Phase, s: Snapshot, s1: Snapshot, data: ServerData, start: nat)
    requires Tracks(p, s, start)
    requires s1 == s.(nextServerData := data, retry := 0, state := Switching, nextStep := Reconnect)
    ensures Tracks(p.(next := data, switching := true, hops := [], tries := 0, pending := Reconnect),
                   Deactivated(s1, ClientUser), start)
  {
    var s2 := Deactivated(s1, ClientUser);
    assert s2.queue == [] && Keys(s2.queue) == [];
  }

  lemma SilentSwitchTracks(p: Phase, s: Snapshot, e: Event, start: nat)
    requires Tracks(p, s, start) && e.SilentSwitchServers?
    ensures Agrees(Follow(p, e), SilentlySwitched(s, e.cooldownNeeded, e.exitServers, e.env), start, e.env.now)
  {
    if s.state.On? && !(e.cooldownNeeded && e.exitServers <= 1) {
      RestartTracks(p.(switching := true), s.(retry := 0, state := SilentSwitching), false, e.env, start);
    }
  }

  lemma TimeoutTracks(p: Phase, s: Snapshot, e: Event, start: nat)
    requires Tracks(p, s, start) && e.HandshakeTimeout? && s.timer
    ensures Agrees(Follow(p, e), TimedOut(s, e.env), start, e.env.now)
  {
    if e.env.hasProfiles {
    } else if p.pending.Disconnect? {
      assert TimedOut(s, e.env) == Deactivated(s.(timer := false), ClientUser);
      assert Keys([]) == [];
    } else if s.retry + 1 >= MAX_RETRY {
    } else {
      var s1 := s.(timer := false, retry := s.retry + 1);
      assert TimedOut(s, e.env) == Restart(s1, s1.retry == 1, s.initiator, e.env);
      RestartTracks(p, s1, s1.retry == 1, e.env, start);
    }
  }

  lemma FinishTracks(p: Phase, s: Snapshot, env: Env, start: nat)
    requires Tracks(p, s, start)
    ensures Agrees(Finish(p), Established(s, env), start, env.now)
  {
    assert Keys([]) == [];
  }

  lemma HandshakeTracks(p: Phase, s: Snapshot, e: Event, start: nat)
    requires Tracks(p, s, start) && e.HandshakeCompleted?
    ensures Agrees(Follow(p, e), Connected(s, e.key, e.env), start, e.env.now)
  {
    if s.queue == [] {
      FinishTracks(p, s, e.env, start);
    } else if s.queue[0].key != e.key {
      assert p.hops[0] == s.queue[0].key;
    } else if |s.queue| > 1 {
      assert p.hops[0] == s.queue[0].key;
      assert Keys(s.queue[1..]) == p.hops[1..];
    } else {
      assert p.hops[0] == s.queue[0].key;
      FinishTracks(p, s, e.env, start);
    }
  }

  lemma TunnelDownTracks(p: Phase, s: Snapshot, e: Event, start: nat)
    requires Tracks(p, s, start) && e.TunnelDown?
    ensures Agrees(Follow(p, e), Disconnected(s, e.env), start, e.env.now)
  {
    if p.pending.Reconnect? {
      var s1 := s.(timer := false, queue := [], retry := 0, nextStep := NoStep, serverData := s.nextServerData);
      assert Disconnected(s, e.env) == Restart(s1, false, s.initiator, e.env);
      DialMeaning(e.env, s1.serverData.multihop, s1.initiator, false);
      if p.switching || !DialKeys(e.env, p.next.multihop).Dialled? {
        RestartTracks(p.(at := p.next, hops := [], tries := 0, pending := NoStep), s1, false, e.env, start);
      }
    }
  }

  /** For the events of a session the phase is exact: there is a next phase if and only if the session goes on. */
  lemma SessionEventTracks(p: Phase, s: Snapshot, e: Event, start: nat)
    requires Tracks(p, s, start) && Enabled(s, e) && SessionEvent(e)
    ensures Agrees(Follow(p, e), Step(s, e), start, e.env.now)
    ensures e.env.now != start ==> (Follow(p, e).Some? <==> InSession(Step(s, e), start))
  {
    match e
    case SwitchServers(_, _) => SwitchTracks(p, s, e, start);
    case SilentSwitchServers(_, _, _) => SilentSwitchTracks(p, s, e, start);
    case HandshakeTimeout(_) => TimeoutTracks(p, s, e, start);
    case HandshakeCompleted(_, _) => HandshakeTracks(p, s, e, start);
    case TunnelDown(_) => TunnelDownTracks(p, s, e, start);
  }

  lemma OtherEventTracks(p: Phase, s: Snapshot, e: Event, start: nat)
    requires Tracks(p, s, start) && !SessionEvent(e) && Follow(p, e).Some?
    ensures Tracks(Follow(p, e).value, Step(s, e), start)
  {
  }

  /** The controller follows the session's phase, event by event. */
  lemma StepTracks(p: Phase, s: Snapshot, e: Event, start: nat)
    requires Tracks(p, s, start) && Enabled(s, e) && Follow(p, e).Some?
    ensures Tracks(Follow(p, e).value, Step(s, e), start)
  {
    if SessionEvent(e) {
      SessionEventTracks(p, s, e, start);
    } else {
      OtherEventTracks(p, s, e, start);
    }
  }

  /** The phase after the first `n` events, unless one of them ended the session. */
  function PhaseAfter(p: Phase, es: seq<Event>, n: nat): Option<Phase>
    requires n <= |es|
  {
    if n == 0 then Some(p)
    else
      var q := PhaseAfter(p, es, n - 1);
      if q.None? then None else Follow(q.value, es[n - 1])
  }

  /** The tunnel is fully on since `start`, and nothing is under way. */
  predicate Settled(s: Snapshot, start: nat)
  {
    && s.state.On? && !s.initiator.ExtensionUser? && s.connectedTime == Some(start)
    && s.queue == [] && !s.timer && s.nextStep.NoStep?
  }

  function FirstPhase(s: Snapshot): Phase
  {
    Phase(s.initiator, s.serverData, s.nextServerData, false, [], s.retry, NoStep)
  }

  ghost predicate StepAt(ss: seq<Snapshot>, es: seq<Event>, i: nat)
    requires |ss| == |es| + 1 && i < |es|
  {
    Enabled(ss[i], es[i]) && ss[i + 1] == Step(ss[i], es[i])
  }

  /** Snapshots joined by enabled events, starting anywhere. */
  ghost predicate Stretch(ss: seq<Snapshot>, es: seq<Event>)
  {
    |ss| == |es| + 1 && forall i :: 0 <= i < |es| ==> StepAt(ss, es, i)
  }

  /** From a tunnel that is on, any number of user and silent switches, retries and reconnects keep the original
      start time, as long as the events themselves allow it; the tunnel is on exactly when they say that no switch
      is under way. */
  lemma {:induction false} SessionSurvives(ss: seq<Snapshot>, es: seq<Event>, start: nat, n: nat)
    requires Stretch(ss, es) && n <= |es| && Settled(ss[0], start)
    requires PhaseAfter(FirstPhase(ss[0]), es, n).Some?
    ensures var p := PhaseAfter(FirstPhase(ss[0]), es, n).value;
            && Tracks(p, ss[n], start) && InSession(ss[n], start)
            && (ss[n].state.On? <==> !p.switching)
  {
    if n == 0 {
      assert Keys(ss[0].queue) == [];
    } else {
      SessionSurvives(ss, es, start, n - 1);
      assert StepAt(ss, es, n - 1);
      StepTracks(PhaseAfter(FirstPhase(ss[0]), es, n - 1).value, ss[n - 1], es[n - 1], start);
    }
  }

  /** For any run of session events the conditions on the events are exact: they allow the session to go on if and
      only if it is never left and its start time is never reset. */
  lemma {:induction false} SessionSurvivesExactly(ss: seq<Snapshot>, es: seq<Event>, start: nat, n: nat)
    requires Stretch(ss, es) && n <= |es| && Settled(ss[0], start)
    requires forall i :: 0 <= i < n ==> SessionEvent(es[i]) && es[i].env.now != start
    ensures PhaseAfter(FirstPhase(ss[0]), es, n).Some? <==> forall i | 0 <= i <= n :: InSession(ss[i], start)
  {
    if n > 0 {
      SessionSurvivesExactly(ss, es, start, n - 1);
      if PhaseAfter(FirstPhase(ss[0]), es, n - 1).Some? {
        LastEventDecides(ss, es, start, n - 1);
      }
    }
  }

  lemma LastEventDecides(ss: seq<Snapshot>, es: seq<Event>, start: nat, n: nat)
    requires Stretch(ss, es) && n < |es| && Settled(ss[0], start) && PhaseAfter(FirstPhase(ss[0]), es, n).Some?
    requires SessionEvent(es[n]) && es[n].env.now != start
    ensures PhaseAfter(FirstPhase(ss[0]), es, n + 1).Some? <==> InSession(ss[n + 1], start)
  {
    SessionSurvives(ss, es, start, n);
    assert StepAt(ss, es, n);
    SessionEventTracks(PhaseAfter(FirstPhase(ss[0]), es, n).value, ss[n], es[n], start);
  }

  function Steps(s: Snapshot, es: seq<Event>): Snapshot
    decreases |es|
  {
    if es == [] then s else Steps(Step(s, es[0]), es[1..])
  }

  function Answering(keys: seq<Key>, env: Env): seq<Event>
  {
    seq(|keys|, i requires 0 <= i < |keys| => HandshakeCompleted(keys[i], env))
  }

  lemma {:induction false} AnswersFinish(p: Phase, s: Snapshot, start: nat, env: Env)
    requires Tracks(p, s, start) && p.switching && p.pending.NoStep?
    ensures Settled(Steps(s, Answering(p.hops, env)), start)
    decreases |p.hops|
  {
    var es := Answering(p.hops, env);
    StepTracks(p, s, es[0], start);
    var p', s' := Follow(p, es[0]).value, Step(s, es[0]);
    if |p.hops| > 1 {
      assert es[1..] == Answering(p'.hops, env);
      AnswersFinish(p', s', start, env);
    } else {
      assert es[1..] == [];
      assert s'.queue == [];
    }
  }

  /** What is left to happen before the tunnel is on again. */
  function Completion(p: Phase, env: Env): seq<Event>
    requires DialKeys(env, p.next.multihop).Dialled?
  {
    if !p.switching then []
    else if p.pending.Reconnect? then [TunnelDown(env)] + Answering(DialKeys(env, p.next.multihop).keys, env)
    else Answering(p.hops, env)
  }

  /** A session on course is never stuck: once the pending disconnection is reported and the awaited hops answer, the
      tunnel is fully on again with the original start time. */
  lemma SessionReturns(ss: seq<Snapshot>, es: seq<Event>, start: nat, env: Env)
    requires Stretch(ss, es) && Settled(ss[0], start)
    requires PhaseAfter(FirstPhase(ss[0]), es, |es|).Some? && PhaseAfter(FirstPhase(ss[0]), es, |es|).value.OnCourse()
    requires DialKeys(env, PhaseAfter(FirstPhase(ss[0]), es, |es|).value.next.multihop).Dialled?
    ensures Settled(Steps(ss[|es|], Completion(PhaseAfter(FirstPhase(ss[0]), es, |es|).value, env)), start)
  {
    SessionSurvives(ss, es, start, |es|);
    CompletionSettles(PhaseAfter(FirstPhase(ss[0]), es, |es|).value, ss[|es|], start, env);
  }

  lemma CompletionSettles(p: Phase, s: Snapshot, start: nat, env: Env)
    requires Tracks(p, s, start) && p.OnCourse() && DialKeys(env, p.next.multihop).Dialled?
    ensures Settled(Steps(s, Completion(p, env)), start)
  {
    if !p.switching {
      assert s.queue == [];
    } else if p.pending.Reconnect? {
      var down := TunnelDown(env);
      StepTracks(p, s, down, start);
      var p' := Follow(p, down).value;
      assert Completion(p, env)[1..] == Answering(p'.hops, env);
      AnswersFinish(p', Step(s, down), start, env);
    } else {
      AnswersFinish(p, s, start, env);
    }
  }

  /** A session off course waits in vain: the next disconnection ends it, resets it or leaves it off course. */
  lemma OffCourseStays(p: Phase, e: Event)
    requires !p.OnCourse() && (e.TunnelDown? || e.HandshakeCompleted? || e.HandshakeTimeout?) && Follow(p, e).Some?
    ensures !Follow(p, e).value.OnCourse()
  {
  }

  // ---- sessions that lose their start time ----

  /** A reconnect that starts from On, not from Switching, is timed as a new session. */
  lemma ReconnectFromOnLosesSession(s: Snapshot, env: Env)
    requires s.state.On? && s.nextStep.Reconnect? && s.initiator.ClientUser?
    requires !s.nextServerData.multihop && env.device && env.exit.Some?
    ensures var up := Connected(Disconnected(s, env), env.exit.value.server.publicKey, env);
            up.state.On? && up.connectedTime == Some(env.now)
  {
    var s1 := Disconnected(s, env);
    assert s1.state.Confirming? && |s1.queue| == 1 && s1.nextStep.NoStep? && s1.initiator.ClientUser?;
    assert s1.queue[0].key == env.exit.value.server.publicKey;
  }

  /** A switch that needs a full reconnect loses the session start if the old tunnel's handshake is reported
      before the tunnel goes down: the controller is then back in On, still due to reconnect. */
  lemma LateHandshakeLosesSession(s: Snapshot, data: ServerData, env: Env, start: nat)
    requires InSession(s, start) && s.state.On? && s.initiator.ClientUser?
    requires env.multihopBackend && env.device && env.exit.Some?
    requires s.serverData.multihop && !data.multihop
    ensures var s1 := Switched(s, data, env);
            var s2 := Connected(s1, s.serverData.exitKey, env);
            var s4 := Connected(Disconnected(s2, env), env.exit.value.server.publicKey, env);
            && InSession(s1, start) && InSession(s2, start)
            && s4.state.On? && s4.connectedTime == Some(env.now)
  {
    var s1 := Switched(s, data, env);
    assert s1.state.Switching? && s1.queue == [] && s1.nextStep.Reconnect? && s1.initiator.ClientUser?;
    assert s1.nextServerData == data && s1.serverData == s.serverData && s1.connectedTime == Some(start);
    var s2 := Connected(s1, s.serverData.exitKey, env);
    assert s2.state.On? && s2.nextStep.Reconnect? && s2.initiator.ClientUser? && s2.nextServerData == data;
    ReconnectFromOnLosesSession(s2, env);
  }
}
