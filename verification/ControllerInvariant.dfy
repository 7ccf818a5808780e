/** The inductive invariant of the controller, where a queued hop comes from,
    and what has happened by the time the tunnel is reported up. */
module ControllerInvariant {
  import opened ControllerTypes
  import opened ControllerSpec

  /** `[]`, `[exit]` or `[entry, exit]`. */
  predicate QueueShape(q: seq<Config>)
  {
    || q == []
    || (|q| == 1 && !q[0].hop.MultiHopEntry?)
    || (|q| == 2 && q[0].hop.MultiHopEntry? && q[1].hop.MultiHopExit?)
  }

  predicate Inv(s: Snapshot)
  {
    && QueueShape(s.queue)
    && (s.timer ==> s.queue != [])
    && s.retry <= MAX_RETRY + 1
    && (s.retry >= MAX_RETRY && s.timer ==> |s.queue| == 1)
    && (s.retry == MAX_RETRY + 1 ==> !s.timer && |s.queue| <= 1)
  }

  // ---- what one event may do ----

  predicate HasServers(e: Event)
  {
    e.ActivateServers? || e.SwitchServers? || e.SilentSwitchServers? || e.HandshakeTimeout? || e.TunnelDown?
  }

  /** The hops in `s` were built from servers by `e`, for the initiator of `s`. */
  predicate BuiltFromServers(e: Event, s: Snapshot)
  {
    && HasServers(e)
    && (|| SetupConfigs(e.env, s.serverData.multihop, s.initiator, true) == Hops(s.queue)
        || SetupConfigs(e.env, s.serverData.multihop, s.initiator, false) == Hops(s.queue))
  }

  predicate BuiltBy(e: Event, s: Snapshot)
  {
    || BuiltFromServers(e, s)
    || (e.ActivateProfile? && s.queue == [e.config] && s.initiator == e.initiator)
  }

  predicate Answers(s: Snapshot, e: Event)
  {
    e.HandshakeCompleted? && s.queue != [] && e.key == s.queue[0].key
  }

  /** An event empties the queue, keeps it, takes its answered head off, or builds a new one. */
  predicate QueueStep(s: Snapshot, e: Event, s': Snapshot)
  {
    || s'.queue == []
    || (s'.queue == s.queue && s'.initiator == s.initiator)
    || (|s.queue| == 2 && Answers(s, e) && s'.queue == s.queue[1..] && s'.initiator == s.initiator)
    || BuiltBy(e, s')
  }

  /** Only a backend that reports itself connected, or the last handshake, turns the tunnel on. */
  predicate UpStep(s: Snapshot, e: Event, s': Snapshot)
  {
    !s.state.IsOn() && s'.state.IsOn() ==>
      || (e.ImplInitialized? && e.status && e.connected)
      || (&& e.HandshakeCompleted?
          && s'.queue == []
          && (s.queue != [] ==> |s.queue| == 1 && Answers(s, e))
          && (s'.state.OnPartial? <==> s.initiator.ExtensionUser?))
  }

  predicate GoodStep(s: Snapshot, e: Event, s': Snapshot)
  {
    Inv(s') && QueueStep(s, e, s') && UpStep(s, e, s')
  }

  /** Restarting an activation yields a well-shaped queue built for the initiator, or none. */
  lemma RestartGood(s: Snapshot, forceDns: bool, initiator: Principal, e: Event)
    requires s.retry < MAX_RETRY && HasServers(e)
    ensures var r := Restart(s, forceDns, initiator, e.env);
            && Inv(r) && (r.queue == [] || BuiltFromServers(e, r))
            && (r.state.IsOn() ==> r.state == s.state)
  {
  }

  lemma DeactivatedGood(s: Snapshot, user: Principal)
    requires Inv(s)
    ensures var r := Deactivated(s, user);
            && Inv(r) && (r.queue == [] || r.queue == s.queue) && r.initiator == s.initiator
            && (r.state.IsOn() ==> r.state == s.state)
  {
    if s.initiator.Rank() > user.Rank() {
    } else if s.state.ConnectionError? && s.error.ErrorNoServerAvailable? {
    } else if !s.state.IsActive() {
    } else {
    }
  }

  lemma TimedOutGood(s: Snapshot, e: Event)
    requires Inv(s) && s.timer && e.HandshakeTimeout?
    ensures GoodStep(s, e, TimedOut(s, e.env))
  {
    var s0 := s.(timer := false);
    if e.env.hasProfiles {
    } else if s.nextStep.EndsSession() {
      DeactivatedGood(s0, ClientUser);
    } else if s.retry + 1 < MAX_RETRY {
      RestartGood(s0.(retry := s.retry + 1), s.retry == 0, s.initiator, e);
    }
  }

  lemma ConnectedGood(s: Snapshot, e: Event)
    requires Inv(s) && e.HandshakeCompleted?
    ensures GoodStep(s, e, Connected(s, e.key, e.env))
  {
    if s.queue == [] {
    } else if s.queue[0].key != e.key {
    } else if |s.queue| > 1 {
    } else {
    }
  }

  lemma DisconnectedGood(s: Snapshot, e: Event)
    requires Inv(s) && e.TunnelDown?
    ensures GoodStep(s, e, Disconnected(s, e.env))
  {
    if s.nextStep.Reconnect? {
      RestartGood(s.(timer := false, queue := [], retry := 0, nextStep := NoStep,
                     serverData := s.nextServerData), false, s.initiator, e);
    }
  }

  lemma ActivatedGood(s: Snapshot, e: Event)
    requires Inv(s) && e.ActivateServers?
    ensures GoodStep(s, e, Activated(s, e.data, e.initiator, e.env))
  {
    if !MayActivate(s.state) {
    } else if s.state.Off? && s.portalDetected {
    } else if s.state.Off? && e.env.checkConnectivity && !e.env.reachable {
    } else {
      var state := if e.initiator.ExtensionUser? then s.state else Connecting;
      RestartGood(s.(error := ErrorNone, serverData := e.data, state := state, retry := 0), false, e.initiator, e);
    }
  }

  lemma ProfileActivatedGood(s: Snapshot, e: Event)
    requires Inv(s) && e.ActivateProfile? && Enabled(s, e)
    ensures GoodStep(s, e, ProfileActivated(s, e.config, e.initiator, e.env))
  {
    if !MayActivate(s.state) {
    } else if !s.backendAvailable {
    } else if s.state.Off? && e.env.checkConnectivity && !e.env.reachable {
    } else {
    }
  }

  lemma SwitchedGood(s: Snapshot, e: Event)
    requires Inv(s) && e.SwitchServers?
    ensures GoodStep(s, e, Switched(s, e.data, e.env))
  {
    var state := if s.state.Connecting? then Connecting else Switching;
    var s1 := s.(nextServerData := e.data, retry := 0, state := state);
    if !s.state.IsActive() {
    } else if e.env.multihopBackend && e.data.multihop != s.serverData.multihop {
      DeactivatedGood(s1.(nextStep := Reconnect), ClientUser);
    } else {
      RestartGood(s1.(serverData := e.data), false, s.initiator, e);
    }
  }

  lemma SilentlySwitchedGood(s: Snapshot, e: Event)
    requires Inv(s) && e.SilentSwitchServers?
    ensures GoodStep(s, e, SilentlySwitched(s, e.cooldownNeeded, e.exitServers, e.env))
  {
    if s.state.On? && !(e.cooldownNeeded && e.exitServers <= 1) {
      RestartGood(s.(retry := 0, state := SilentSwitching), false, s.initiator, e);
    }
  }

  /** Events that bring hops up, or report on them. */
  predicate ConcernsHops(e: Event)
  {
    HasServers(e) || e.ActivateProfile? || e.HandshakeCompleted?
  }

  lemma HopEventGood(s: Snapshot, e: Event)
    requires Inv(s) && Enabled(s, e) && ConcernsHops(e)
    ensures GoodStep(s, e, Step(s, e))
  {
    match e
    case ActivateServers(_, _, _) => ActivatedGood(s, e);
    case ActivateProfile(_, _, _) => ProfileActivatedGood(s, e);
    case SwitchServers(_, _) => SwitchedGood(s, e);
    case SilentSwitchServers(_, _, _) => SilentlySwitchedGood(s, e);
    case HandshakeTimeout(_) => TimedOutGood(s, e);
    case HandshakeCompleted(_, _) => ConnectedGood(s, e);
    case TunnelDown(_) => DisconnectedGood(s, e);
  }

  predicate SameHops(s: Snapshot, s': Snapshot)
  {
    s'.queue == s.queue && s'.timer == s.timer && s'.retry == s.retry && s'.initiator == s.initiator
  }

  lemma SameHopsGood(s: Snapshot, e: Event, s': Snapshot)
    requires Inv(s) && SameHops(s, s')
    requires s'.state.IsOn() ==> s'.state == s.state || (e.ImplInitialized? && e.status && e.connected)
    ensures GoodStep(s, e, s')
  {
  }

  lemma ClosingGood(s: Snapshot, e: Event, s1: Snapshot, user: Principal)
    requires Inv(s) && SameHops(s, s1) && s1.state == s.state
    ensures GoodStep(s, e, Deactivated(s1, user))
  {
    DeactivatedGood(s1, user);
  }

  lemma OtherEventGood(s: Snapshot, e: Event)
    requires Inv(s) && !ConcernsHops(e)
    ensures GoodStep(s, e, Step(s, e))
  {
    var s' := Step(s, e);
    if e.Deactivate? {
      ClosingGood(s, e, s, e.user);
    } else if e.QuitRequested? && s.state.IsActive() && !s.state.Disconnecting? {
      ClosingGood(s, e, s.(nextStep := Quit), ClientUser);
    } else if e.UpdateRequired? && s.state.IsActive() && s.state.IsOn() {
      ClosingGood(s, e, s.(nextStep := Update), ClientUser);
    } else {
      assert SameHops(s, s');
      SameHopsGood(s, e, s');
    }
  }

  /** Every event keeps the invariant, whatever order the backend reports in. */
  lemma StepGood(s: Snapshot, e: Event)
    requires Inv(s) && Enabled(s, e)
    ensures GoodStep(s, e, Step(s, e))
  {
    if ConcernsHops(e) {
      HopEventGood(s, e);
    } else {
      OtherEventGood(s, e);
    }
  }

  lemma {:induction false} RunInv(ss: seq<Snapshot>, es: seq<Event>, n: nat)
    requires IsRun(ss, es) && n < |ss|
    ensures Inv(ss[n])
  {
    if n > 0 {
      RunInv(ss, es, n - 1);
      StepGood(ss[n - 1], es[n - 1]);
    }
  }

  /** Both assertions of the timeout handler hold whenever it can run, and the retry counter is bounded. */
  lemma TimeoutAssertionsHold(ss: seq<Snapshot>, es: seq<Event>, n: nat)
    requires IsRun(ss, es) && n < |ss|
    ensures ss[n].timer ==> ss[n].queue != [] && !ss[n].queue[|ss[n].queue| - 1].hop.MultiHopEntry?
    ensures ss[n].retry <= MAX_RETRY + 1
  {
    RunInv(ss, es, n);
  }

  // ---- where the queue comes from ----

  /** The queue was built by event `m`, has been the same until snapshot `i`, and since then (if `i < n`)
      lacks the entry hop, which answered in event `i`. */
  ghost predicate QueuedSince(ss: seq<Snapshot>, es: seq<Event>, m: nat, i: nat, n: nat)
    requires |ss| == |es| + 1
  {
    && m < i <= n <= |es|
    && BuiltBy(es[m], ss[m + 1])
    && (forall j :: m < j <= n ==>
          && ss[j].initiator == ss[m + 1].initiator
          && ss[j].queue == if j <= i then ss[m + 1].queue else ss[m + 1].queue[1..])
    && (i < n ==> |ss[m + 1].queue| == 2 && Answers(ss[i], es[i]))
  }

  lemma {:induction false} QueueOrigin(ss: seq<Snapshot>, es: seq<Event>, n: nat) returns (m: nat, i: nat)
    requires IsRun(ss, es) && n <= |es| && ss[n].queue != []
    ensures QueuedSince(ss, es, m, i, n)
  {
    var p := n - 1;
    RunInv(ss, es, p);
    StepGood(ss[p], es[p]);
    if BuiltBy(es[p], ss[n]) {
      m, i := p, n;
    } else {
      m, i := QueueOrigin(ss, es, p);
      if ss[n].queue == ss[p].queue {
        i := if i == p then n else i;
      } else {
        i := p;
      }
    }
  }

  /** Every hop of the activation built by event `m` has answered, in queue order, the last one in event `n`,
      with nothing rebuilt in between. */
  ghost predicate AllHopsAnswered(ss: seq<Snapshot>, es: seq<Event>, m: nat, n: nat)
    requires |ss| == |es| + 1
  {
    && m < n < |es|
    && BuiltBy(es[m], ss[m + 1])
    && ss[n].initiator == ss[m + 1].initiator
    && Answers(ss[n], es[n])
    && var plan := ss[m + 1].queue;
       || (|plan| == 1 && es[n].key == plan[0].key
           && forall j :: m < j <= n ==> ss[j].queue == plan)
       || (|plan| == 2 && es[n].key == plan[1].key
           && exists i :: m < i < n && Answers(ss[i], es[i]) && es[i].key == plan[0].key
                && (forall j :: m < j <= i ==> ss[j].queue == plan)
                && (forall j :: i < j <= n ==> ss[j].queue == plan[1..]))
  }

  /** A handshake uses up the queue, or an event other than a backend report turns the tunnel on. */
  predicate CompletesQueue(s: Snapshot, e: Event, s': Snapshot)
  {
    && s.queue != []
    && (|| (e.HandshakeCompleted? && s'.queue == [])
        || (!e.ImplInitialized? && !s.state.IsOn() && s'.state.IsOn()))
  }

  /** A queue is used up by the answer of its last hop and by nothing else. */
  lemma LastHopAnswers(s: Snapshot, e: Event)
    requires Inv(s) && Enabled(s, e)
    ensures CompletesQueue(s, e, Step(s, e)) ==> Answers(s, e) && |s.queue| == 1
  {
    StepGood(s, e);
    if e.HandshakeCompleted? {
      assert Step(s, e) == Connected(s, e.key, e.env);
    }
  }

  /** A queued activation is complete, and reaches On or OnPartial, only after all its hops answered in queue order:
      also when the extension activates again while the tunnel is already partial. */
  lemma UpOnlyAfterAllHops(ss: seq<Snapshot>, es: seq<Event>, n: nat)
    requires IsRun(ss, es) && n < |es| && CompletesQueue(ss[n], es[n], ss[n + 1])
    ensures exists m :: AllHopsAnswered(ss, es, m, n)
  {
    RunInv(ss, es, n);
    LastHopAnswers(ss[n], es[n]);
    var m, i := QueueOrigin(ss, es, n);
    if i < n {
      assert Answers(ss[i], es[i]);
      assert ss[i].queue == ss[m + 1].queue;
      assert ss[n].queue == ss[m + 1].queue[1..];
    } else {
      assert ss[n].queue == ss[m + 1].queue;
      RunInv(ss, es, m + 1);
    }
    assert AllHopsAnswered(ss, es, m, n);
  }

  /** The exit hop of a queue built from servers carries the ranges of the current initiator. */
  lemma ExitBuiltForInitiator(ss: seq<Snapshot>, es: seq<Event>, m: nat, i: nat, n: nat)
    requires IsRun(ss, es) && QueuedSince(ss, es, m, i, n) && BuiltFromServers(es[m], ss[m + 1])
    ensures ss[n].queue != [] && es[m].env.exit.Some?
    ensures ss[n].queue[|ss[n].queue| - 1].ranges
         == RangesFor(ss[n].initiator, es[m].env.exit.value.server, es[m].env.dns)
  {
    RunInv(ss, es, m + 1);
    assert ss[n].initiator == ss[m + 1].initiator;
  }

  /** The last answer leaves the tunnel partial for the extension and full for anyone else, if it leaves it on. */
  lemma LastAnswerDecides(s: Snapshot, e: Event)
    requires Answers(s, e) && |s.queue| == 1 && Step(s, e).state.IsOn()
    ensures Step(s, e).state.OnPartial? <==> s.initiator.ExtensionUser?
  {
    assert Step(s, e) == Established(s, e.env);
  }

  /** When the last hop of a server activation answers, the tunnel is partial exactly when its exit ranges are
      the extension's, and full only when they hold both catch-alls: across retries, switches, reconnects. */
  lemma ProtectionMatchesRanges(ss: seq<Snapshot>, es: seq<Event>, m: nat, i: nat, n: nat)
    requires IsRun(ss, es) && n < |es| && QueuedSince(ss, es, m, i, n) && BuiltFromServers(es[m], ss[m + 1])
    requires Answers(ss[n], es[n]) && |ss[n].queue| == 1 && ss[n + 1].state.IsOn()
    ensures es[m].env.exit.Some?
    ensures var exit := ss[n].queue[|ss[n].queue| - 1];
            var server := es[m].env.exit.value.server;
            && (ss[n + 1].state.OnPartial? <==> exit.ranges == ExtensionRanges(server, es[m].env.dns))
            && (ss[n + 1].state.On? <==> CATCH_ALL_V4 in exit.ranges && CATCH_ALL_V6 in exit.ranges)
  {
    ExitBuiltForInitiator(ss, es, m, i, n);
    LastAnswerDecides(ss[n], es[n]);
    RangesSeparate(es[m].env.exit.value.server, es[m].env.dns);
  }
}
