/** What each controller event does to the controller's fields, as functions on a snapshot. */
module ControllerSpec {
  import opened Common
  import opened ControllerTypes

  datatype Snapshot = Snapshot(
    state: State,
    error: ErrorCode,
    initiator: Principal,
    nextStep: NextStep,
    queue: seq<Config>,
    timer: bool,
    retry: nat,
    connectedTime: Option<nat>,
    serverData: ServerData,
    nextServerData: ServerData,
    backendAvailable: bool,
    portalDetected: bool)

  const INITIAL_DATA := ServerData(false, "", "")

  const INITIAL := Snapshot(Initializing, ErrorNone, NoOne, NoStep, [], false, 0, None,
                            INITIAL_DATA, INITIAL_DATA, false, false)

  // ---- hop configurations ----

  datatype Setup = Hops(hops: seq<Config>) | NoServer | NoDevice

  /** The hops to bring up for a location: `[exit]`, or `[entry, exit]` with a multi-hop backend. */
  function SetupConfigs(env: Env, multihop: bool, initiator: Principal, forceDns: bool): (r: Setup)
    ensures r.Hops? ==> env.device && 1 <= |r.hops| <= 2
  {
    if env.exit.None? then NoServer
    else if !env.device then NoDevice
    else
      var exit := env.exit.value;
      var ranges := RangesFor(initiator, exit.server, env.dns);
      var force := forceDns || env.alwaysPort53;
      if !env.multihopFeature || !multihop then
        Hops([Config(SingleHop, exit.server.publicKey, if force then DNS_PORT else exit.port, ranges)])
      else if env.entry.None? then NoServer
      else if env.multihopBackend then
        var entry := env.entry.value;
        Hops([Config(MultiHopEntry, entry.server.publicKey,
                     if force then DNS_PORT else entry.port, env.exitAddresses),
              Config(MultiHopExit, exit.server.publicKey, exit.port, ranges)])
      else
        Hops([Config(SingleHop, exit.server.publicKey, exit.server.multihopPort, ranges)])
  }

  function UnavailableError(state: State): ErrorCode
  {
    if state.Connecting? then ErrorNoServerAvailable else ErrorServerTimeout
  }

  function LocationUnavailable(s: Snapshot): Snapshot
  {
    s.(error := UnavailableError(s.state), state := ConnectionError)
  }

  /** The state while a hop is being brought up. */
  function HopState(state: State, initiator: Principal): State
  {
    if initiator.ExtensionUser? || state.IsSwitching() then state else Confirming
  }

  function WithKeys(data: ServerData, hops: seq<Config>): ServerData
    requires hops != []
  {
    data.(entryKey := hops[0].key, exitKey := hops[|hops| - 1].key)
  }

  /** Start the hop at the head of the queue. A missing device leaves everything as it is. */
  function StartHop(s: Snapshot, env: Env): Snapshot
  {
    if s.queue == [] then s.(error := ErrorFatal, state := ConnectionError)
    else if !env.hasProfiles && !env.device then s
    else s.(timer := true, state := HopState(s.state, s.initiator))
  }

  /** Drop whatever was being brought up and bring up the current location instead. */
  function Restart(s: Snapshot, forceDns: bool, initiator: Principal, env: Env): Snapshot
  {
    var setup := SetupConfigs(env, s.serverData.multihop, initiator, forceDns);
    s.(initiator := initiator,
       timer := setup.Hops?,
       queue := if setup.Hops? then setup.hops else [],
       serverData := if setup.Hops? then WithKeys(s.serverData, setup.hops) else s.serverData,
       nextStep := if setup.NoDevice? then Disconnect else s.nextStep,
       error := if setup.NoServer? then UnavailableError(s.state) else s.error,
       state := if setup.NoServer? then ConnectionError
                else if setup.Hops? then HopState(s.state, initiator)
                else s.state)
  }

  predicate MayActivate(s: State)
  {
    s.Off? || s.OnPartial? || s.IsSwitching() || s.RegeneratingKey?
  }

  // ---- one function per event ----

  function Activated(s: Snapshot, data: ServerData, initiator: Principal, env: Env): Snapshot
  {
    if !MayActivate(s.state) then s else
    var s1 := s.(error := ErrorNone, serverData := data);
    if s.state.Off? && s.portalDetected then s1.(portalDetected := false)
    else if s.state.Off? && env.checkConnectivity && !env.reachable then s1
    else
      var s2 := s1.(state := if initiator.ExtensionUser? then s.state else Connecting,
                    retry := 0);
      Restart(s2, false, initiator, env)
  }

  function ProfileActivated(s: Snapshot, config: Config, initiator: Principal, env: Env): Snapshot
  {
    if !MayActivate(s.state) then s
    else if !s.backendAvailable then s.(error := ErrorNoServerAvailable, state := ConnectionError)
    else if s.state.Off? && env.checkConnectivity && !env.reachable then
      s.(error := ErrorNone)
    else
      StartHop(s.(error := ErrorNone,
                  state := if initiator.ExtensionUser? then s.state else Connecting,
                  retry := 0, initiator := initiator, timer := false, queue := [config]), env)
  }

  function Deactivated(s: Snapshot, user: Principal): Snapshot
  {
    if s.initiator.Rank() > user.Rank() then s
    else if s.state.ConnectionError? && s.error.ErrorNoServerAvailable? then s.(state := Off)
    else if !s.state.IsActive() then s
    else s.(portalDetected := false,
            state := if s.state.IsSwitching() then s.state else Disconnecting,
            timer := false, queue := [], retry := 0, error := ErrorNone)
  }

  function TimedOut(s: Snapshot, env: Env): Snapshot
  {
    var s0 := s.(timer := false);
    if env.hasProfiles then s0.(error := ErrorServerTimeout, state := ConnectionError)
    else if s.nextStep.EndsSession() then Deactivated(s0, ClientUser)
    else
      var s1 := s0.(retry := s.retry + 1);
      if s1.retry < MAX_RETRY then Restart(s1, s1.retry == 1, s.initiator, env)
      else LocationUnavailable(s1)
  }

  /** All hops are up. */
  function Established(s: Snapshot, env: Env): Snapshot
  {
    var s1 := s.(queue := [], timer := false, retry := 0, error := ErrorNone,
                 state := if s.initiator.ExtensionUser? then OnPartial else On,
                 connectedTime := if s.state.IsSwitching() && s.connectedTime.Some?
                                  then s.connectedTime else Some(env.now));
    if s.nextStep.EndsSession() then Deactivated(s1, ClientUser) else s1
  }

  function Connected(s: Snapshot, key: Key, env: Env): Snapshot
  {
    if s.queue == [] then
      if s.serverData.exitKey != key then s else Established(s, env)
    else if s.queue[0].key != key then s
    else if |s.queue| > 1 then StartHop(s.(queue := s.queue[1..]), env)
    else Established(s, env)
  }

  function Disconnected(s: Snapshot, env: Env): Snapshot
  {
    var s1 := s.(timer := false, queue := [], retry := 0, nextStep := NoStep);
    match s.nextStep
    case Quit => s1.(state := Off)
    case Update => s1.(state := Off)
    case Reconnect => Restart(s1.(serverData := s.nextServerData), false, s.initiator, env)
    case _ => s1.(connectedTime := None, initiator := NoOne, state := Off)
  }

  function Switched(s: Snapshot, data: ServerData, env: Env): Snapshot
  {
    if !s.state.IsActive() then s
    else
      var s1 := s.(nextServerData := data, retry := 0,
                   state := if s.state.Connecting? then Connecting else Switching);
      if env.multihopBackend && data.multihop != s.serverData.multihop
      then Deactivated(s1.(nextStep := Reconnect), ClientUser)
      else Restart(s1.(serverData := data), false, s.initiator, env)
  }

  function SilentlySwitched(s: Snapshot, cooldownNeeded: bool, exitServers: nat, env: Env): Snapshot
  {
    if !s.state.On? || (cooldownNeeded && exitServers <= 1) then s
    else Restart(s.(retry := 0, state := SilentSwitching), false, s.initiator, env)
  }

  function QuitAsked(s: Snapshot): Snapshot
  {
    if !s.state.IsActive() then s
    else if s.state.Disconnecting? then s.(nextStep := Quit)
    else Deactivated(s.(nextStep := Quit), ClientUser)
  }

  function UpdateAsked(s: Snapshot): Snapshot
  {
    if !s.state.IsActive() then s
    else if s.state.IsOn() then Deactivated(s.(nextStep := Update), ClientUser)
    else s.(nextStep := Update)
  }

  function BackendInitialized(s: Snapshot, status: bool, connected: bool,
                              date: Option<nat>, now: nat): Snapshot
  {
    if !status then s.(backendAvailable := false, state := Off)
    else s.(backendAvailable := true,
            state := if connected then On else Off,
            connectedTime := if !connected then s.connectedTime
                             else if date.Some? then date else Some(now))
  }

  /** A timeout only happens while the timer runs; a local profile is a single hop. */
  predicate Enabled(s: Snapshot, e: Event)
  {
    match e
    case HandshakeTimeout(_) => s.timer
    case ActivateProfile(config, _, _) => !config.hop.MultiHopEntry?
    case _ => true
  }

  function Step(s: Snapshot, e: Event): Snapshot
  {
    match e
    case ImplPermissionRequired => s.(backendAvailable := false, state := PermissionRequired)
    case ImplInitialized(status, connected, date, now) =>
      BackendInitialized(s, status, connected, date, now)
    case Reinitialize(data) =>
      s.(state := Initializing, backendAvailable := false, serverData := data, nextServerData := data)
    case ActivateServers(data, initiator, env) => Activated(s, data, initiator, env)
    case ActivateProfile(config, initiator, env) => ProfileActivated(s, config, initiator, env)
    case Deactivate(user) => Deactivated(s, user)
    case QuitRequested => QuitAsked(s)
    case UpdateRequired => UpdateAsked(s)
    case SwitchServers(data, env) => Switched(s, data, env)
    case SilentSwitchServers(needed, n, env) => SilentlySwitched(s, needed, n, env)
    case HandshakeTimeout(env) => TimedOut(s, env)
    case HandshakeCompleted(key, env) => Connected(s, key, env)
    case TunnelDown(env) => Disconnected(s, env)
    case StartKeyRegeneration => s.(state := RegeneratingKey)
    case DeleteOSTunnelConfig => s.(state := Initializing)
    case BackendFailure(code) => s.(error := code)
    case PortalPresent => s.(portalDetected := true)
    case PortalGone => s.(portalDetected := false)
  }

  /** A run: snapshots joined by enabled events, from the initial snapshot. */
  ghost predicate IsRun(ss: seq<Snapshot>, es: seq<Event>)
  {
    && |ss| == |es| + 1
    && ss[0] == INITIAL
    && forall i :: 0 <= i < |es| ==> Enabled(ss[i], es[i]) && ss[i + 1] == Step(ss[i], es[i])
  }
}
