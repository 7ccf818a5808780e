/** Values the VPN controller works on: states, principals, servers, hop configurations,
    events, and the address ranges a tunnel is opened for. */
module ControllerTypes {
  import opened Common

  type Key = string

  /** Controller states, from least to most active. */
  datatype State =
    | Initializing
    | PermissionRequired
    | Off
    | Disconnecting
    | RegeneratingKey
    | ConnectionError
    | Connecting
    | Confirming
    | Switching
    | SilentSwitching
    | OnPartial
    | On
  {
    predicate IsActive() {
      !Initializing? && !PermissionRequired? && !Off?
    }

    predicate IsSwitching() {
      Switching? || SilentSwitching?
    }

    predicate IsOn() {
      OnPartial? || On?
    }
  }

  datatype ErrorCode =
    | ErrorNone
    | ErrorFatal
    | ErrorSplitTunnelInit
    | ErrorSplitTunnelStart
    | ErrorSplitTunnelExclude
    | ErrorServerTimeout
    | ErrorNoServerAvailable

  /** Who asked for the tunnel; `Rank` is the order used for permission checks. */
  datatype Principal = NoOne | ExtensionUser | ClientUser
  {
    function Rank(): nat {
      match this
      case NoOne => 0
      case ExtensionUser => 1
      case ClientUser => 2
    }
  }

  /** What to do once the tunnel is down. */
  datatype NextStep = NoStep | Quit | Update | Reconnect | Disconnect
  {
    /** The steps that end the session as soon as a hop resolves. */
    predicate EndsSession() {
      Quit? || Update? || Disconnect?
    }
  }

  datatype IpRange = IpRange(address: string, length: nat)

  datatype Server = Server(
    publicKey: Key,
    ipv4Gateway: string,
    ipv6Gateway: string,
    multihopPort: nat)

  datatype DnsKind = DefaultDns | InternalDns | CustomDns

  /** DNS settings in force; `lan` says that the address is private, unique-local or loopback. */
  datatype Dns = Dns(address: string, kind: DnsKind, lan: bool)

  datatype HopType = SingleHop | MultiHopEntry | MultiHopExit

  datatype Config = Config(hop: HopType, key: Key, port: nat, ranges: seq<IpRange>)

  /** A chosen location with the keys of the servers last used there. */
  datatype ServerData = ServerData(multihop: bool, exitKey: Key, entryKey: Key)

  /** A server picked from a location, and the port drawn from its port ranges. */
  datatype Pick = Pick(server: Server, port: nat)

  /** Everything the controller reads from its surroundings while it handles one event. */
  datatype Env = Env(
    hasProfiles: bool,
    device: bool,
    exit: Option<Pick>,
    entry: Option<Pick>,
    exitAddresses: seq<IpRange>,
    dns: Dns,
    multihopFeature: bool,
    multihopBackend: bool,
    alwaysPort53: bool,
    checkConnectivity: bool,
    reachable: bool,
    now: nat)

  datatype Event =
    | ImplPermissionRequired
    | ImplInitialized(status: bool, connected: bool, date: Option<nat>, now: nat)
    | Reinitialize(data: ServerData)
    | ActivateServers(data: ServerData, initiator: Principal, env: Env)
    | ActivateProfile(config: Config, initiator: Principal, env: Env)
    | Deactivate(user: Principal)
    | QuitRequested
    | UpdateRequired
    | SwitchServers(data: ServerData, env: Env)
    | SilentSwitchServers(cooldownNeeded: bool, exitServers: nat, env: Env)
    | HandshakeTimeout(env: Env)
    | HandshakeCompleted(key: Key, env: Env)
    | TunnelDown(env: Env)
    | StartKeyRegeneration
    | DeleteOSTunnelConfig
    | BackendFailure(code: ErrorCode)
    | PortalPresent
    | PortalGone

  const MAX_RETRY := 9
  const DNS_PORT := 53
  const CATCH_ALL_V4 := IpRange("0.0.0.0", 0)
  const CATCH_ALL_V6 := IpRange("::", 0)
  const PROXY_RANGE := IpRange("10.124.0.0", 20)

  function GatewayV6Range(server: Server): (r: seq<IpRange>)
  {
    if server.ipv6Gateway == "" then [] else [IpRange(server.ipv6Gateway, 128)]
  }

  /** Full device protection: both catch-all ranges, the gateways and the proxy services. */
  function AllowedRanges(server: Server): (r: seq<IpRange>)
  {
    [CATCH_ALL_V4, CATCH_ALL_V6, IpRange(server.ipv4Gateway, 32)]
      + GatewayV6Range(server) + [PROXY_RANGE]
  }

  /** Browser extension only: the gateways, the proxy services and a resolver inside the tunnel. */
  function ExtensionRanges(server: Server, dns: Dns): (r: seq<IpRange>)
  {
    var ranges := [IpRange(server.ipv4Gateway, 32), PROXY_RANGE] + GatewayV6Range(server);
    if dns.kind.DefaultDns? || (dns.kind.CustomDns? && dns.lan) then ranges
    else ranges + [IpRange(dns.address, 32)]
  }

  function RangesFor(initiator: Principal, server: Server, dns: Dns): (r: seq<IpRange>)
  {
    if initiator.ExtensionUser? then ExtensionRanges(server, dns) else AllowedRanges(server)
  }

  /** The resolver is inside the tunnel: the internal one, or a custom one that is not on the local network. */
  predicate ResolverInTunnel(dns: Dns)
  {
    dns.kind == InternalDns || (dns.kind == CustomDns && !dns.lan)
  }

  /** The extension's ranges are the gateways, the proxy services, and the resolver exactly if it is in the tunnel. */
  lemma ExtensionRangesExact(server: Server, dns: Dns, r: IpRange)
    ensures r in ExtensionRanges(server, dns)
       <==> || r == IpRange(server.ipv4Gateway, 32)
            || (server.ipv6Gateway != "" && r == IpRange(server.ipv6Gateway, 128))
            || r == IpRange("10.124.0.0", 20)
            || (ResolverInTunnel(dns) && r == IpRange(dns.address, 32))
    ensures r in AllowedRanges(server)
       <==> || r == IpRange("0.0.0.0", 0) || r == IpRange("::", 0)
            || r == IpRange(server.ipv4Gateway, 32)
            || (server.ipv6Gateway != "" && r == IpRange(server.ipv6Gateway, 128))
            || r == IpRange("10.124.0.0", 20)
  {
  }

  /** Full ranges carry both catch-alls; extension ranges carry no prefix wider than /20. */
  lemma RangesSeparate(server: Server, dns: Dns)
    ensures CATCH_ALL_V4 in AllowedRanges(server) && CATCH_ALL_V6 in AllowedRanges(server)
    ensures forall r <- ExtensionRanges(server, dns) :: r.length >= 20
    ensures AllowedRanges(server) != ExtensionRanges(server, dns)
  {
    assert AllowedRanges(server)[0] == CATCH_ALL_V4;
    assert AllowedRanges(server)[1] == CATCH_ALL_V6;
    assert ExtensionRanges(server, dns)[0].length == 32;
  }
}
