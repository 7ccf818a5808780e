/** The controller itself: an object whose methods handle user requests and backend signals in place. */
module ControllerObject {
  import opened Common
  import opened ControllerTypes
  import opened ControllerSpec
  import opened ControllerInvariant

  class Controller {
    var state: State
    var error: ErrorCode
    var initiator: Principal
    var nextStep: NextStep
    var queue: seq<Config>
    var timer: bool
    var retry: nat
    var connectedTime: Option<nat>
    var serverData: ServerData
    var nextServerData: ServerData
    var backendAvailable: bool
    var portalDetected: bool

    ghost function View(): Snapshot
      reads this
    {
      Snapshot(state, error, initiator, nextStep, queue, timer, retry, connectedTime,
               serverData, nextServerData, backendAvailable, portalDetected)
    }

    constructor ()
      ensures View() == INITIAL && Inv(View())
    {
      state, error, initiator, nextStep := Initializing, ErrorNone, NoOne, NoStep;
      queue, timer, retry, connectedTime := [], false, 0, None;
      serverData, nextServerData := INITIAL_DATA, INITIAL_DATA;
      backendAvailable, portalDetected := false, false;
    }

    method LocationIsUnavailable()
      modifies this`state, this`error
      ensures View() == LocationUnavailable(old(View()))
    {
      if state == Connecting {
        error := ErrorNoServerAvailable;
      } else {
        error := ErrorServerTimeout;
      }
      state := ConnectionError;
    }

    /** Hop configurations for the current location; on failure the list is empty. */
    method PrepareConfigs(forceDns: bool, env: Env) returns (hops: seq<Config>)
      modifies this`state, this`error, this`nextStep
      ensures match SetupConfigs(env, serverData.multihop, initiator, forceDns)
              case NoServer => hops == [] && View() == LocationUnavailable(old(View()))
              case NoDevice => hops == [] && View() == old(View()).(nextStep := Disconnect)
              case Hops(h) => hops == h && View() == old(View())
    {
      if env.exit.None? {
        LocationIsUnavailable();
        return [];
      }
      if !env.device {
        nextStep := Disconnect;
        return [];
      }
      var exit := env.exit.value;
      var ranges := RangesFor(initiator, exit.server, env.dns);
      var exitConfig := Config(SingleHop, exit.server.publicKey, exit.port, ranges);
      var dnsPort := forceDns || env.alwaysPort53;
      hops := [];
      if !env.multihopFeature || !serverData.multihop {
        if dnsPort {
          exitConfig := exitConfig.(port := DNS_PORT);
        }
      } else if env.multihopBackend {
        exitConfig := exitConfig.(hop := MultiHopExit);
        if env.entry.None? {
          LocationIsUnavailable();
          return [];
        }
        var entry := env.entry.value;
        var entryConfig := Config(MultiHopEntry, entry.server.publicKey, entry.port, env.exitAddresses);
        if dnsPort {
          entryConfig := entryConfig.(port := DNS_PORT);
        }
        hops := [entryConfig];
      } else {
        if env.entry.None? {
          LocationIsUnavailable();
          return [];
        }
        exitConfig := exitConfig.(port := exit.server.multihopPort);
      }
      hops := hops + [exitConfig];
    }

    method ActivateNext(env: Env)
      modifies this`state, this`error, this`timer
      ensures View() == StartHop(old(View()), env)
    {
      if queue == [] {
        error := ErrorFatal;
        state := ConnectionError;
        return;
      }
      if !env.hasProfiles {
        if !env.device {
          return;
        }
      }
      timer := true;
      if initiator == ExtensionUser {
        return;
      }
      if state != Switching && state != SilentSwitching {
        state := Confirming;
      }
    }

    method ActivateInternal(forceDns: bool, principal: Principal, env: Env)
      modifies this`state, this`error, this`nextStep, this`initiator, this`timer, this`queue, this`serverData
      ensures View() == Restart(old(View()), forceDns, principal, env)
    {
      initiator, timer, queue := principal, false, [];
      var hops := PrepareConfigs(forceDns, env);
      if hops == [] {
        return;
      }
      StartQueue(hops, env);
    }

    /** Queue the hops, remember their keys and start the first one. */
    method StartQueue(hops: seq<Config>, env: Env)
      requires hops != []
      modifies this`state, this`error, this`timer, this`queue, this`serverData
      ensures View() == StartHop(old(View()).(queue := hops, serverData := WithKeys(old(serverData), hops)), env)
    {
      queue := hops;
      serverData := serverData.(entryKey := queue[0].key);
      serverData := serverData.(exitKey := queue[|queue| - 1].key);
      ActivateNext(env);
    }

    method ActivateServers(data: ServerData, principal: Principal, env: Env)
      modifies this`state, this`error, this`nextStep, this`initiator, this`timer, this`queue, this`serverData,
               this`retry, this`portalDetected
      ensures View() == Activated(old(View()), data, principal, env)
    {
      if !MayActivate(state) {
        return;
      }
      error, serverData := ErrorNone, data;
      if state == Off {
        if portalDetected {
          portalDetected := false;
          return;
        }
        if env.checkConnectivity && !env.reachable {
          return;
        }
      }
      assert View() == old(View()).(error := ErrorNone, serverData := data);
      BeginActivation(principal, env);
    }

    method BeginActivation(principal: Principal, env: Env)
      modifies this`state, this`error, this`nextStep, this`initiator, this`timer, this`queue, this`serverData,
               this`retry
      ensures View() == Restart(old(View()).(state := if principal.ExtensionUser? then old(state) else Connecting,
                                             retry := 0), false, principal, env)
    {
      if principal != ExtensionUser {
        state := Connecting;
      }
      retry := 0;
      ActivateInternal(false, principal, env);
    }

    method ActivateProfile(config: Config, principal: Principal, env: Env)
      modifies this`state, this`error, this`initiator, this`timer, this`queue, this`retry
      ensures View() == ProfileActivated(old(View()), config, principal, env)
    {
      if !MayActivate(state) {
        return;
      }
      error := ErrorNone;
      if !backendAvailable {
        error := ErrorNoServerAvailable;
        state := ConnectionError;
        return;
      }
      if state == Off && env.checkConnectivity && !env.reachable {
        return;
      }
      BeginProfile(config, principal, env);
    }

    method BeginProfile(config: Config, principal: Principal, env: Env)
      modifies this`state, this`error, this`initiator, this`timer, this`queue, this`retry
      ensures View() == StartHop(old(View()).(state := if principal.ExtensionUser? then old(state) else Connecting,
                                              retry := 0, initiator := principal, timer := false, queue := [config]),
                                 env)
    {
      if principal != ExtensionUser {
        state := Connecting;
      }
      retry, initiator, timer, queue := 0, principal, false, [config];
      ActivateNext(env);
    }

    method Deactivate(user: Principal)
      modifies this`state, this`error, this`timer, this`queue, this`retry, this`portalDetected
      ensures View() == Deactivated(old(View()), user)
    {
      if initiator.Rank() > user.Rank() {
        return;
      }
      if state == ConnectionError && error == ErrorNoServerAvailable {
        state := Off;
        return;
      }
      if !state.IsActive() {
        return;
      }
      TakeDown();
    }

    method TakeDown()
      modifies this`state, this`error, this`timer, this`queue, this`retry, this`portalDetected
      ensures View() == old(View()).(portalDetected := false, timer := false, queue := [], retry := 0,
                                     state := if old(state).IsSwitching() then old(state) else Disconnecting,
                                     error := ErrorNone)
    {
      if portalDetected {
        portalDetected := false;
      }
      if state != Switching && state != SilentSwitching {
        state := Disconnecting;
      }
      timer, queue, retry, error := false, [], 0, ErrorNone;
    }

    /** Both assertions of the source stand in the body and are proved from the invariant. */
    method HandshakeTimedOut(env: Env)
      requires Inv(View()) && timer
      modifies this`state, this`error, this`nextStep, this`initiator, this`timer, this`queue, this`serverData,
               this`retry, this`portalDetected
      ensures View() == TimedOut(old(View()), env)
    {
      timer := false;
      assert queue != [];
      if env.hasProfiles {
        error := ErrorServerTimeout;
        state := ConnectionError;
        return;
      }
      if nextStep == Quit || nextStep == Disconnect || nextStep == Update {
        Deactivate(ClientUser);
        return;
      }
      retry := retry + 1;
      assert queue[|queue| - 1].hop != MultiHopEntry;
      if retry == 1 {
        ActivateInternal(true, initiator, env);
        return;
      } else if retry < MAX_RETRY {
        ActivateInternal(false, initiator, env);
        return;
      }
      LocationIsUnavailable();
    }

    /** Every queued hop is up, or the service was activated from outside. */
    method AllHopsUp(env: Env)
      requires queue == []
      modifies this`state, this`error, this`timer, this`queue, this`retry, this`portalDetected, this`connectedTime
      ensures View() == Established(old(View()), env)
    {
      ReportUp(env);
      if nextStep == Quit || nextStep == Disconnect || nextStep == Update {
        Deactivate(ClientUser);
      }
    }

    method ReportUp(env: Env)
      modifies this`state, this`error, this`timer, this`retry, this`connectedTime
      ensures View() == old(View()).(timer := false, retry := 0, error := ErrorNone,
                                     state := if initiator.ExtensionUser? then OnPartial else On,
                                     connectedTime := if old(state).IsSwitching() && old(connectedTime).Some?
                                                      then old(connectedTime) else Some(env.now))
    {
      timer, retry := false, 0;
      var isSwitchingServer := state == Switching || state == SilentSwitching;
      if initiator == ExtensionUser {
        state := OnPartial;
      } else {
        state := On;
      }
      error := ErrorNone;
      if !isSwitchingServer || connectedTime == None {
        connectedTime := Some(env.now);
      }
    }

    method HandshakeCompleted(key: Key, env: Env)
      modifies this`state, this`error, this`timer, this`queue, this`retry, this`portalDetected, this`connectedTime
      ensures View() == Connected(old(View()), key, env)
    {
      if queue == [] {
        if serverData.exitKey != key {
          return;
        }
      } else if queue[0].key != key {
        return;
      } else {
        queue := queue[1..];
        if queue != [] {
          ActivateNext(env);
          return;
        }
      }
      AllHopsUp(env);
    }

    method TunnelWentDown(env: Env)
      modifies this`state, this`error, this`nextStep, this`initiator, this`timer, this`queue, this`serverData,
               this`retry, this`connectedTime
      ensures View() == Disconnected(old(View()), env)
    {
      timer, queue, retry := false, [], 0;
      var next := nextStep;
      nextStep := NoStep;
      match next {
        case Quit =>
          state := Off;
          return;
        case Update =>
          state := Off;
          return;
        case Reconnect =>
          assert View() == old(View()).(timer := false, queue := [], retry := 0, nextStep := NoStep);
          BringUpAt(nextServerData, env);
          return;
        case _ =>
      }
      connectedTime := None;
      initiator := NoOne;
      state := Off;
    }

    method SwitchServers(data: ServerData, env: Env)
      modifies this`state, this`error, this`nextStep, this`initiator, this`timer, this`queue, this`serverData,
               this`retry, this`portalDetected, this`nextServerData
      ensures View() == Switched(old(View()), data, env)
    {
      if !state.IsActive() {
        return;
      }
      nextServerData, retry := data, 0;
      if state != Connecting {
        state := Switching;
      }
      assert View() == old(View()).(nextServerData := data, retry := 0,
                                    state := if old(state).Connecting? then Connecting else Switching);
      if env.multihopBackend && nextServerData.multihop != serverData.multihop {
        CloseFor(Reconnect);
        return;
      }
      BringUpAt(data, env);
    }

    /** Take the tunnel down; `step` says what for. */
    method CloseFor(step: NextStep)
      modifies this`state, this`error, this`nextStep, this`timer, this`queue, this`retry, this`portalDetected
      ensures View() == Deactivated(old(View()).(nextStep := step), ClientUser)
    {
      nextStep := step;
      Deactivate(ClientUser);
    }

    /** Bring the tunnel up at another location, for the same initiator. */
    method BringUpAt(data: ServerData, env: Env)
      modifies this`state, this`error, this`nextStep, this`initiator, this`timer, this`queue, this`serverData
      ensures View() == Restart(old(View()).(serverData := data), false, old(initiator), env)
    {
      serverData := data;
      ActivateInternal(false, initiator, env);
    }

    method SilentSwitchServers(cooldownNeeded: bool, exitServers: nat, env: Env)
      modifies this`state, this`error, this`nextStep, this`initiator, this`timer, this`queue, this`serverData,
               this`retry
      ensures View() == SilentlySwitched(old(View()), cooldownNeeded, exitServers, env)
    {
      if state != On {
        return;
      }
      if cooldownNeeded {
        if exitServers <= 1 {
          return;
        }
      }
      retry := 0;
      state := SilentSwitching;
      assert View() == old(View()).(retry := 0, state := SilentSwitching);
      ActivateInternal(false, initiator, env);
    }

    method RequestQuit()
      modifies this`state, this`error, this`nextStep, this`timer, this`queue, this`retry, this`portalDetected
      ensures View() == QuitAsked(old(View()))
    {
      if !state.IsActive() {
        return;
      }
      nextStep := Quit;
      if state != Disconnecting {
        Deactivate(ClientUser);
      }
    }

    method RequireUpdate()
      modifies this`state, this`error, this`nextStep, this`timer, this`queue, this`retry, this`portalDetected
      ensures View() == UpdateAsked(old(View()))
    {
      if !state.IsActive() {
        return;
      }
      nextStep := Update;
      if state == On || state == OnPartial {
        Deactivate(ClientUser);
      }
    }

    method BackendIsInitialized(status: bool, connected: bool, date: Option<nat>, now: nat)
      modifies this`state, this`backendAvailable, this`connectedTime
      ensures View() == BackendInitialized(old(View()), status, connected, date, now)
    {
      if !status {
        backendAvailable := false;
        state := Off;
        return;
      }
      backendAvailable := true;
      state := if connected then On else Off;
      if connected {
        connectedTime := if date.Some? then date else Some(now);
      }
    }

    /** Any event, at any time it can happen: the object moves as specified and keeps its invariant. */
    method Handle(e: Event)
      requires Inv(View()) && Enabled(View(), e)
      modifies this
      ensures View() == Step(old(View()), e)
      ensures Inv(View())
    {
      StepGood(View(), e);
      match e {
        case ImplPermissionRequired => backendAvailable, state := false, PermissionRequired;
        case ImplInitialized(status, connected, date, now) => BackendIsInitialized(status, connected, date, now);
        case Reinitialize(data) =>
          state, backendAvailable, serverData, nextServerData := Initializing, false, data, data;
        case ActivateServers(data, principal, env) => ActivateServers(data, principal, env);
        case ActivateProfile(config, principal, env) => ActivateProfile(config, principal, env);
        case Deactivate(user) => Deactivate(user);
        case QuitRequested => RequestQuit();
        case UpdateRequired => RequireUpdate();
        case SwitchServers(data, env) => SwitchServers(data, env);
        case SilentSwitchServers(needed, n, env) => SilentSwitchServers(needed, n, env);
        case HandshakeTimeout(env) => HandshakeTimedOut(env);
        case HandshakeCompleted(key, env) => HandshakeCompleted(key, env);
        case TunnelDown(env) => TunnelWentDown(env);
        case StartKeyRegeneration => state := RegeneratingKey;
        case DeleteOSTunnelConfig => state := Initializing;
        case BackendFailure(code) => error := code;
        case PortalPresent => portalDetected := true;
        case PortalGone => portalDetected := false;
      }
    }
  }
}
