/** What activation and the requests to end a session achieve, from the event to the tunnel being up or down. */
module ControllerLifecycle {
  import opened Common
  import opened ControllerTypes
  import opened ControllerSpec
  import opened ControllerSessions

  // ---- answers of all hops ----

  /** The last answer turns the tunnel on; out of a switch it is timed anew. */
  ghost predicate Up(s: Snapshot, s': Snapshot, now: nat)
  {
    && s'.state == (if s.initiator.ExtensionUser? then OnPartial else On)
    && s'.connectedTime == (if s.state.IsSwitching() && s.connectedTime.Some? then s.connectedTime else Some(now))
    && s'.queue == [] && !s'.timer && s'.retry == 0 && s'.error.ErrorNone?
    && s'.initiator == s.initiator && s'.serverData == s.serverData && s'.nextStep == s.nextStep
  }

  lemma OneAnswer(s: Snapshot, env: Env)
    requires |s.queue| > 1 && (env.hasProfiles || env.device)
    ensures var s' := Step(s, HandshakeCompleted(s.queue[0].key, env));
            && s'.queue == s.queue[1..] && s'.timer && s'.retry == s.retry
            && s'.initiator == s.initiator && s'.serverData == s.serverData && s'.nextStep == s.nextStep
            && s'.connectedTime == s.connectedTime && s'.state.IsSwitching() == s.state.IsSwitching()
  {
  }

  lemma LastAnswer(s: Snapshot, env: Env)
    requires |s.queue| == 1 && !s.nextStep.EndsSession()
    ensures Up(s, Step(s, HandshakeCompleted(s.queue[0].key, env)), env.now)
  {
  }

  /** When the queued hops answer in order, the tunnel is up: partially for the extension, fully for anyone else. */
  lemma {:induction false} AnswersBringUp(s: Snapshot, env: Env)
    requires s.queue != [] && (env.hasProfiles || env.device) && !s.nextStep.EndsSession()
    ensures Up(s, Steps(s, Answering(Keys(s.queue), env)), env.now)
    decreases |s.queue|
  {
    var es := Answering(Keys(s.queue), env);
    var s' := Step(s, es[0]);
    assert es[0] == HandshakeCompleted(s.queue[0].key, env);
    if |s.queue| == 1 {
      assert es[1..] == [];
      LastAnswer(s, env);
    } else {
      OneAnswer(s, env);
      assert es[1..] == Answering(Keys(s'.queue), env);
      AnswersBringUp(s', env);
    }
  }

  // ---- activation ----

  /** Activation is considered in these states and ignored in all others. */
  predicate Considers(state: State)
  {
    || state == Off || state == OnPartial || state == Switching || state == SilentSwitching
    || state == RegeneratingKey
  }

  /** From Off, a captive portal or a failed connectivity check stops it. */
  predicate Blocked(s: Snapshot, env: Env)
  {
    s.state == Off && (s.portalDetected || (env.checkConnectivity && !env.reachable))
  }

  /** The hops with these keys are being brought up for the initiator, on the first attempt. */
  ghost predicate BringingUp(s: Snapshot, s': Snapshot, initiator: Principal, keys: seq<Key>)
  {
    && Keys(s'.queue) == keys && s'.timer && s'.retry == 0 && s'.initiator == initiator && s'.error.ErrorNone?
    && s'.state == (if initiator.ExtensionUser? then s.state else Confirming)
    && s'.nextStep == s.nextStep && s'.connectedTime == s.connectedTime
  }

  /** One attempt to bring the location up. */
  lemma AttemptMeaning(s: Snapshot, initiator: Principal, env: Env)
    ensures var r := Restart(s, false, initiator, env);
            match DialKeys(env, s.serverData.multihop)
            case Dialled(keys) =>
              && Keys(r.queue) == keys && r.timer && r.state == HopState(s.state, initiator)
              && r.serverData == s.serverData.(entryKey := keys[0], exitKey := keys[|keys| - 1])
              && r == s.(initiator := initiator, timer := true, queue := r.queue, serverData := r.serverData,
                         state := r.state)
            case ServerMissing =>
              && r.state.ConnectionError? && r.queue == [] && !r.timer
              && r.error == (if s.state.Connecting? then ErrorNoServerAvailable else ErrorServerTimeout)
            case DeviceMissing => r.queue == [] && !r.timer && r.nextStep.Disconnect?
  {
    DialMeaning(env, s.serverData.multihop, initiator, false);
    var setup := SetupConfigs(env, s.serverData.multihop, initiator, false);
    if setup.Hops? {
      var n := |setup.hops|;
      assert Keys(setup.hops)[0] == setup.hops[0].key && Keys(setup.hops)[n - 1] == setup.hops[n - 1].key;
    }
  }

  /** What the request to activate servers does: ignored, refused, begun with the location's hops in order, or failed
      for want of a server or a device. */
  lemma ActivationMeaning(s: Snapshot, data: ServerData, initiator: Principal, env: Env)
    ensures var s' := Step(s, ActivateServers(data, initiator, env));
            if !Considers(s.state) then s' == s
            else if Blocked(s, env) then s' == s.(error := ErrorNone, serverData := data, portalDetected := false)
            else match DialKeys(env, data.multihop)
                 case Dialled(keys) =>
                   && BringingUp(s, s', initiator, keys)
                   && s'.serverData == data.(entryKey := keys[0], exitKey := keys[|keys| - 1])
                 case ServerMissing =>
                   && s'.state.ConnectionError? && s'.queue == [] && !s'.timer
                   && s'.error == (if initiator.ExtensionUser? then ErrorServerTimeout else ErrorNoServerAvailable)
                 case DeviceMissing => s'.queue == [] && !s'.timer && s'.nextStep.Disconnect?
  {
    if Considers(s.state) && !Blocked(s, env) {
      var state := if initiator.ExtensionUser? then s.state else Connecting;
      var s1 := s.(error := ErrorNone, serverData := data, state := state, retry := 0);
      assert Step(s, ActivateServers(data, initiator, env)) == Restart(s1, false, initiator, env);
      AttemptMeaning(s1, initiator, env);
    }
  }

  /** From Off with nothing pending, activation brings the tunnel up exactly unless it is refused or a server or the
      device is missing: the hops' answers end in OnPartial for the extension and in On otherwise, timed from then. */
  lemma ActivationConnects(s: Snapshot, data: ServerData, initiator: Principal, env: Env, later: Env)
    requires s.state.Off? && !s.timer && s.nextStep.NoStep? && (later.hasProfiles || later.device)
    ensures var s' := Step(s, ActivateServers(data, initiator, env));
            && (s'.timer <==> !s.portalDetected && (!env.checkConnectivity || env.reachable)
                              && DialKeys(env, data.multihop).Dialled?)
            && (s'.timer ==>
                  var keys := DialKeys(env, data.multihop).keys;
                  var up := Steps(s', Answering(keys, later));
                  && Keys(s'.queue) == keys && s'.initiator == initiator && s'.retry == 0
                  && up.state == (if initiator.ExtensionUser? then OnPartial else On)
                  && up.connectedTime == Some(later.now) && up.initiator == initiator && up.queue == [] && !up.timer)
  {
    ActivationMeaning(s, data, initiator, env);
    var s' := Step(s, ActivateServers(data, initiator, env));
    if s'.timer {
      AnswersBringUp(s', later);
    }
  }

  /** The same for a local profile: it also needs a backend, and is stopped without profiles and device. */
  lemma ProfileActivationConnects(s: Snapshot, config: Config, initiator: Principal, env: Env, later: Env)
    requires s.state.Off? && !s.timer && s.nextStep.NoStep? && (later.hasProfiles || later.device)
    ensures var s' := Step(s, ActivateProfile(config, initiator, env));
            && (s'.timer <==> s.backendAvailable && (!env.checkConnectivity || env.reachable)
                              && (env.hasProfiles || env.device))
            && (!s.backendAvailable ==> s'.state.ConnectionError? && s'.error.ErrorNoServerAvailable?)
            && (s.backendAvailable && env.checkConnectivity && !env.reachable ==> s' == s.(error := ErrorNone))
            && (s'.timer ==>
                  var up := Step(s', HandshakeCompleted(config.key, later));
                  && s'.queue == [config] && s'.initiator == initiator && s'.retry == 0
                  && s'.state == (if initiator.ExtensionUser? then Off else Confirming)
                  && up.state == (if initiator.ExtensionUser? then OnPartial else On)
                  && up.connectedTime == Some(later.now) && up.initiator == initiator && up.queue == [] && !up.timer)
  {
    var s' := Step(s, ActivateProfile(config, initiator, env));
    if s'.timer {
      LastAnswer(s', later);
    }
  }

  /** In the other states: ignored, or begun whatever the portal and the connectivity. */
  lemma ProfileActivationMeaning(s: Snapshot, config: Config, initiator: Principal, env: Env)
    requires s.state != Off
    ensures var s' := Step(s, ActivateProfile(config, initiator, env));
            if !Considers(s.state) then s' == s
            else if !s.backendAvailable then s' == s.(error := ErrorNoServerAvailable, state := ConnectionError)
            else && s'.queue == [config] && s'.initiator == initiator && s'.retry == 0
                 && (s'.timer <==> env.hasProfiles || env.device)
  {
  }

  // ---- switching and reconnecting, from any state ----

  /** The location is dialled for the same initiator, or the attempt fails. */
  ghost predicate Attempted(s: Snapshot, s': Snapshot, data: ServerData, env: Env)
  {
    match DialKeys(env, data.multihop)
    case Dialled(keys) =>
      && Keys(s'.queue) == keys && s'.timer && s'.retry == 0 && s'.initiator == s.initiator
      && s'.serverData == data.(entryKey := keys[0], exitKey := keys[|keys| - 1])
    case ServerMissing => s'.state.ConnectionError? && s'.queue == [] && !s'.timer
    case DeviceMissing => s'.queue == [] && !s'.timer && s'.nextStep.Disconnect?
  }

  lemma SwitchForm(s: Snapshot, data: ServerData, env: Env)
    ensures var s', state := Step(s, SwitchServers(data, env)), if s.state.Connecting? then Connecting else Switching;
            if !s.state.IsActive() then s' == s
            else if env.multihopBackend && data.multihop != s.serverData.multihop then
              s' == Deactivated(s.(nextServerData := data, retry := 0, state := state, nextStep := Reconnect),
                                ClientUser)
            else
              s' == Restart(s.(nextServerData := data, serverData := data, retry := 0, state := state), false,
                            s.initiator, env)
  {
    if !s.state.IsActive() {
    } else if env.multihopBackend && data.multihop != s.serverData.multihop {
    } else {
    }
  }

  lemma ClientCloses(s: Snapshot)
    requires s.state.Connecting? || s.state.IsSwitching()
    ensures var s' := Deactivated(s, ClientUser);
            s' == s.(portalDetected := false, timer := false, queue := [], retry := 0, error := ErrorNone,
                     state := if s.state.Connecting? then Disconnecting else s.state)
  {
  }

  /** A switch is ignored unless active; between one and two hops the tunnel is taken down first, to be brought up at
      the new location; otherwise that is dialled at once. */
  lemma SwitchMeaning(s: Snapshot, data: ServerData, env: Env)
    ensures var s' := Step(s, SwitchServers(data, env));
            if !s.state.IsActive() then s' == s
            else if env.multihopBackend && data.multihop != s.serverData.multihop then
              && s'.nextStep.Reconnect? && s'.nextServerData == data && s'.queue == [] && !s'.timer && s'.retry == 0
              && s'.serverData == s.serverData
              && s'.state == (if s.state.Connecting? then Disconnecting else Switching)
            else
              Attempted(s, s', data, env)
  {
    SwitchForm(s, data, env);
    var state := if s.state.Connecting? then Connecting else Switching;
    if s.state.IsActive() && env.multihopBackend && data.multihop != s.serverData.multihop {
      ClientCloses(s.(nextServerData := data, retry := 0, state := state, nextStep := Reconnect));
    } else if s.state.IsActive() {
      AttemptMeaning(s.(nextServerData := data, serverData := data, retry := 0, state := state), s.initiator, env);
    }
  }

  /** A silent switch dials the current location again, only from a tunnel that is fully on, and unless the server it
      leaves would be the only one and needs a cooldown; until the hops answer it stays a silent one. */
  lemma SilentSwitchMeaning(s: Snapshot, cooldownNeeded: bool, exitServers: nat, env: Env)
    ensures var s' := Step(s, SilentSwitchServers(cooldownNeeded, exitServers, env));
            if s.state != On || (cooldownNeeded && exitServers < 2) then s' == s
            else
              && Attempted(s, s', s.serverData, env)
              && (DialKeys(env, s.serverData.multihop).Dialled? && !s.initiator.ExtensionUser? ==>
                    s'.state == SilentSwitching)
  {
    if s.state.On? && !(cooldownNeeded && exitServers < 2) {
      AttemptMeaning(s.(retry := 0, state := SilentSwitching), s.initiator, env);
    }
  }

  /** Once the tunnel is down a pending reconnect dials the location it was meant for. */
  lemma ReconnectMeaning(s: Snapshot, env: Env)
    requires s.nextStep.Reconnect?
    ensures Attempted(s, Step(s, TunnelDown(env)), s.nextServerData, env)
  {
    var s1 := s.(timer := false, queue := [], retry := 0, nextStep := NoStep, serverData := s.nextServerData);
    assert Step(s, TunnelDown(env)) == Restart(s1, false, s.initiator, env);
    AttemptMeaning(s1, s.initiator, env);
  }

  // ---- ending ----

  /** Everything under way is dropped; a switching state is left for the tunnel-down report to resolve. */
  ghost predicate Closing(s: Snapshot, s': Snapshot)
  {
    && s'.queue == [] && !s'.timer && s'.retry == 0 && s'.error.ErrorNone? && !s'.portalDetected
    && s'.state == (if s.state.IsSwitching() then s.state else Disconnecting)
    && s'.initiator == s.initiator && s'.connectedTime == s.connectedTime
  }

  /** Deactivation: refused to a lower rank than the initiator's; after a failure to find a server there is nothing to
      close; otherwise the tunnel is closed, and once it is down the controller is off with nothing left of the
      session. */
  lemma DeactivationEnds(s: Snapshot, user: Principal, env: Env)
    requires !s.nextStep.Reconnect?
    ensures var s' := Step(s, Deactivate(user));
            if s.initiator.Rank() > user.Rank() then s' == s
            else if s.state.ConnectionError? && s.error.ErrorNoServerAvailable? then s' == s.(state := Off)
            else if s.state == Initializing || s.state == PermissionRequired || s.state == Off then s' == s
            else
              var down := Step(s', TunnelDown(env));
              && Closing(s, s') && s'.nextStep == s.nextStep
              && down.state.Off? && down.queue == [] && !down.timer && down.retry == 0 && down.nextStep.NoStep?
              && (!s.nextStep.Quit? && !s.nextStep.Update? ==> down.initiator.NoOne? && down.connectedTime.None?)
  {
  }

  /** A failed activation by the client can simply be deactivated: nothing was ever brought up. */
  lemma NeverConnectedCloses(s: Snapshot, data: ServerData, env: Env)
    requires s.state.Off? && !Blocked(s, env) && DialKeys(env, data.multihop) == ServerMissing
    ensures var failed := Step(s, ActivateServers(data, ClientUser, env));
            failed.state.ConnectionError? && Step(failed, Deactivate(ClientUser)) == failed.(state := Off)
  {
    ActivationMeaning(s, data, ClientUser, env);
    var failed := Step(s, ActivateServers(data, ClientUser, env));
    assert failed.initiator.ClientUser?;
  }

  /** Quitting closes an active session whatever it is doing; the tunnel-down report then ends it, and no answer or
      timeout that still arrives brings it back. */
  lemma QuitEnds(s: Snapshot, env: Env)
    requires s.state.IsActive() && !(s.state.ConnectionError? && s.error.ErrorNoServerAvailable?)
    ensures var s' := Step(s, QuitRequested);
            && s'.nextStep.Quit?
            && (if s.state.Disconnecting? then s' == s.(nextStep := Quit) else Closing(s, s'))
            && Step(s', TunnelDown(env))
            == s'.(state := Off, nextStep := NoStep, timer := false, queue := [], retry := 0)
  {
  }

  /** An update closes a tunnel that is on; otherwise it waits until the hops have answered, and closes it then. */
  lemma UpdateEnds(s: Snapshot, env: Env)
    requires s.state.IsActive()
    ensures var s' := Step(s, UpdateRequired);
            && s'.nextStep.Update?
            && (if s.state.IsOn() then Closing(s, s') else s' == s.(nextStep := Update))
            && Step(s', TunnelDown(env))
            == s'.(state := Off, nextStep := NoStep, timer := false, queue := [], retry := 0)
  {
  }

  /** With an end pending, neither the last answer nor a timeout goes on with the session. */
  lemma PendingEndWins(s: Snapshot, env: Env)
    requires s.nextStep.EndsSession() && s.queue != []
    ensures |s.queue| == 1 ==>
              var s' := Step(s, HandshakeCompleted(s.queue[0].key, env));
              s'.state.Disconnecting? && s'.queue == [] && !s'.timer && s'.nextStep == s.nextStep
    ensures s.timer && !env.hasProfiles && s.state.IsActive()
            && !(s.state.ConnectionError? && s.error.ErrorNoServerAvailable?) ==>
              Closing(s, Step(s, HandshakeTimeout(env)))
  {
  }

  // ---- reports ----

  /** A backend that is found connected takes over its tunnel, timed from its own date if it gives one; one that is not
      leaves the controller off and ready for local profiles; one that failed does not. */
  lemma InitializationMeaning(s: Snapshot, status: bool, connected: bool, date: Option<nat>, now: nat)
    ensures var s' := Step(s, ImplInitialized(status, connected, date, now));
            && s'.backendAvailable == status && s'.queue == s.queue && s'.initiator == s.initiator
            && s'.state == (if status && connected then On else Off)
            && s'.connectedTime
            == (if !status || !connected then s.connectedTime else if date == None then Some(now) else date)
  {
  }

  /** A captive portal blocks the next activation from Off, once, unless it has gone. */
  lemma PortalBlocksOnce(s: Snapshot, data: ServerData, initiator: Principal, env: Env)
    requires s.state.Off? && (!env.checkConnectivity || env.reachable)
    ensures var blocked := Step(Step(s, PortalPresent), ActivateServers(data, initiator, env));
            && blocked == s.(error := ErrorNone, serverData := data, portalDetected := false)
            && !Blocked(blocked, env)
    ensures !Blocked(Step(Step(s, PortalPresent), PortalGone), env)
  {
    ActivationMeaning(Step(s, PortalPresent), data, initiator, env);
  }

  /** Other reports are recorded and touch nothing else. */
  lemma ReportsAreRecorded(s: Snapshot, code: ErrorCode, data: ServerData)
    ensures Step(s, BackendFailure(code)) == s.(error := code)
    ensures Step(s, ImplPermissionRequired) == s.(backendAvailable := false, state := PermissionRequired)
    ensures Step(s, StartKeyRegeneration) == s.(state := RegeneratingKey)
    ensures Step(s, DeleteOSTunnelConfig) == s.(state := Initializing)
    ensures Step(s, Reinitialize(data))
         == s.(state := Initializing, backendAvailable := false, serverData := data, nextServerData := data)
  {
  }

  // ---- hops ----

  /** With nothing queued there is nothing to start, which is an error; a missing device is none. */
  lemma StartingNeedsAHop(s: Snapshot, env: Env)
    ensures s.queue == [] ==> StartHop(s, env) == s.(error := ErrorFatal, state := ConnectionError)
    ensures s.queue != [] && !env.hasProfiles && !env.device ==> StartHop(s, env) == s
  {
  }

  /** Each hop is built from its server. The hop dialled first is forced onto the DNS port if that is asked for, unless
      it is an exit server reached without a multi-hop backend, which has a port of its own. */
  lemma HopsAreBuilt(env: Env, multihop: bool, initiator: Principal, forceDns: bool)
    requires SetupConfigs(env, multihop, initiator, forceDns).Hops?
    ensures var hops, force := SetupConfigs(env, multihop, initiator, forceDns).hops, forceDns || env.alwaysPort53;
            var exit, last := env.exit.value, hops[|hops| - 1];
            && (|hops| == 2 <==> multihop && env.multihopFeature && env.multihopBackend)
            && last.key == exit.server.publicKey && last.ranges == RangesFor(initiator, exit.server, env.dns)
            && (|hops| == 2 ==>
                  && hops[0].hop.MultiHopEntry? && last.hop.MultiHopExit? && last.port == exit.port
                  && hops[0].key == env.entry.value.server.publicKey && hops[0].ranges == env.exitAddresses
                  && hops[0].port == if force then 53 else env.entry.value.port)
            && (|hops| == 1 ==>
                  && last.hop.SingleHop?
                  && last.port == if multihop && env.multihopFeature then exit.server.multihopPort
                                  else if force then 53 else exit.port)
  {
  }
}
