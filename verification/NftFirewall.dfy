/** The firewall as a whole: what every sequence of control operations leaves installed,
    and which packets the input and output hooks then let through. */
module NftFirewall {
  import opened Nft
  import opened NftRules

  type Path = seq<Octet>

  // ---- the remaining rules ----

  function ConntrackRule(fwmark: seq<Octet>): Rule
  {
    IfMeta(MarkKey, fwmark) + [Immediate(EXCLUDED), StoreCtMark]
  }

  function ServerMarkRule(v4: bool, fwmark: seq<Octet>): Rule
  {
    IfMeta(NfProto, [if v4 then NFPROTO_IPV4 else NFPROTO_IPV6])
      + (IfMeta(L4Proto, [IPPROTO_UDP]) + (IfServer(v4, Source) + SetMarkTo(fwmark)))
  }

  function ReplyMarkRule(fwmark: seq<Octet>): Rule
  {
    [LoadCtMark, CmpEq(EXCLUDED)] + SetMarkTo(fwmark)
  }

  function CgroupRule(path: Path, fwmark: seq<Octet>): Rule
  {
    [MatchCgroup(path)]
      + (IfMeta(MarkKey, UNMARKED) + (UnlessMeta(OifType, LOOPBACK) + SetMarkTo(fwmark)))
  }

  function IsolateRule(ifname: seq<Octet>, addr: seq<Octet>): Rule
  {
    IfMeta(NfProto, [NFPROTO_IPV6])
      + (UnlessMeta(IifName, Pad16(ifname))
         + [LoadSourceType, CmpNeq(RTN_LOCAL), NetPayload(24, 16), CmpEq(addr), Verdict(Drop)])
  }

  function BlockDnsRule(proto: Octet): Rule
  {
    IfMeta(L4Proto, [proto]) + [TransportPayload(2, 2), CmpEq(DNS_PORT), Verdict(Reject)]
  }

  // ---- control operations ----

  datatype Ruleset = Ruleset(
    cgroupMark: seq<Rule>,
    conntrack: seq<Rule>,
    preroute: seq<Rule>,
    input: seq<Rule>,
    output: seq<Rule>,
    sets: Sets,
    fwmark: seq<Octet>)

  /** Base chains in creation order, with the hook, priority and policy they are created with. */
  function Table(rs: Ruleset): seq<Chain>
  {
    [Chain(Output, -300, Accept, rs.cgroupMark),
     Chain(Output, -199, Accept, rs.conntrack),
     Chain(Prerouting, -150, Accept, rs.preroute),
     Chain(Input, 0, Drop, rs.input),
     Chain(Output, 0, Drop, rs.output)]
  }

  const EMPTY := Ruleset([], [], [], [], [], Sets({}, {}), UNMARKED)

  /** Tables created, firewall mark applied, traffic restricted. */
  function Installed(fwmark: seq<Octet>, ifname: seq<Octet>): Ruleset
  {
    Ruleset([],
            [ConntrackRule(fwmark)],
            [ServerMarkRule(true, fwmark), ServerMarkRule(false, fwmark), ReplyMarkRule(fwmark)],
            RestrictRules(Source, ifname, fwmark),
            RestrictRules(Destination, ifname, fwmark),
            Sets({}, {}), fwmark)
  }

  type Ip = ip: seq<Octet> | |ip| == 16 witness seq(16, i => Byte(0))

  datatype Op =
    | MarkInbound(ip: Ip)
    | ClearInbound(ip: Ip)
    | AllowPrefix(net: IpNet)
    | IsolateIpv6(ifname: seq<Octet>, addr: Ip)
    | BlockDns
    | MarkCgroup(path: Path)
    | ResetCgroup(path: Path)
    | ResetAllCgroups

  predicate ValidOps(ops: seq<Op>)
  {
    forall op <- ops :: op.AllowPrefix? ==> ValidNet(op.net)
  }

  /** Control group paths longer than 511 bytes are cut. */
  function Cut(path: Path): Path
  {
    if |path| >= 512 then path[..511] else path
  }

  /** Control groups are told apart by the first 511 bytes of their paths. */
  lemma CutCollides(a: Path, b: Path)
    ensures Cut(a) == Cut(b) <==> a == b || (|a| >= 511 && |b| >= 511 && a[..511] == b[..511])
  {
  }

  function AddServer(sets: Sets, ip: Ip): Sets
  {
    match To4(ip)
    case Some(ip4) => sets.(v4 := sets.v4 + {ip4})
    case None => sets.(v6 := sets.v6 + {ip})
  }

  function RemoveServer(sets: Sets, ip: Ip): Sets
  {
    match To4(ip)
    case Some(ip4) => sets.(v4 := sets.v4 - {ip4})
    case None => sets.(v6 := sets.v6 - {ip})
  }

  predicate ForCgroup(rule: Rule, path: Path)
  {
    rule != [] && rule[0] == MatchCgroup(path)
  }

  function Without(rules: seq<Rule>, path: Path): seq<Rule>
  {
    if rules == [] then []
    else Without(rules[..|rules| - 1], path)
         + if ForCgroup(rules[|rules| - 1], path) then [] else [rules[|rules| - 1]]
  }

  /** Rules an operation appends to the chain of one direction. */
  function OpRules(op: Op, dir: Direction): seq<Rule>
    requires op.AllowPrefix? ==> ValidNet(op.net)
  {
    match op
    case AllowPrefix(net) => [PrefixRule(net, dir)]
    case BlockDns => if dir.Source? then [] else [BlockDnsRule(IPPROTO_UDP), BlockDnsRule(IPPROTO_TCP)]
    case _ => []
  }

  function Apply(rs: Ruleset, op: Op): Ruleset
    requires op.AllowPrefix? ==> ValidNet(op.net)
  {
    match op
    case MarkInbound(ip) => rs.(sets := AddServer(rs.sets, ip))
    case ClearInbound(ip) => rs.(sets := RemoveServer(rs.sets, ip))
    case AllowPrefix(_) =>
      rs.(output := rs.output + OpRules(op, Destination), input := rs.input + OpRules(op, Source))
    case BlockDns => rs.(output := rs.output + OpRules(op, Destination))
    case IsolateIpv6(ifname, addr) => rs.(preroute := rs.preroute + [IsolateRule(ifname, addr)])
    case MarkCgroup(path) => rs.(cgroupMark := rs.cgroupMark + [CgroupRule(Cut(path), rs.fwmark)])
    case ResetCgroup(path) => rs.(cgroupMark := Without(rs.cgroupMark, Cut(path)))
    case ResetAllCgroups => rs.(cgroupMark := [])
  }

  function After(fwmark: seq<Octet>, ifname: seq<Octet>, ops: seq<Op>): Ruleset
    requires ValidOps(ops)
  {
    if ops == [] then Installed(fwmark, ifname)
    else Apply(After(fwmark, ifname, ops[..|ops| - 1]), ops[|ops| - 1])
  }

  // ---- what is installed after any sequence of operations ----

  /** The last operation on a server address marked it. */
  predicate ServerMarked(ops: seq<Op>, ip: Ip)
  {
    && ops != []
    && var op := ops[|ops| - 1];
       if op.MarkInbound? && op.ip == ip then true
       else if op.ClearInbound? && op.ip == ip then false
       else ServerMarked(ops[..|ops| - 1], ip)
  }

  /** The last operation on a control group marked it. */
  predicate CgroupMarked(ops: seq<Op>, path: Path)
  {
    && ops != []
    && var op := ops[|ops| - 1];
       if op.MarkCgroup? && Cut(op.path) == path then true
       else if op.ResetAllCgroups? || (op.ResetCgroup? && Cut(op.path) == path) then false
       else CgroupMarked(ops[..|ops| - 1], path)
  }

  function TailRules(ops: seq<Op>, dir: Direction): seq<Rule>
    requires ValidOps(ops)
  {
    if ops == [] then [] else TailRules(ops[..|ops| - 1], dir) + OpRules(ops[|ops| - 1], dir)
  }

  function IsolateRules(ops: seq<Op>): seq<Rule>
  {
    if ops == [] then []
    else IsolateRules(ops[..|ops| - 1])
         + if ops[|ops| - 1].IsolateIpv6? then [IsolateRule(ops[|ops| - 1].ifname, ops[|ops| - 1].addr)] else []
  }

  lemma Associates(a: seq<Rule>, b: seq<Rule>, c: seq<Rule>)
    ensures a + b + c == a + (b + c) && a + [] == a
  {
  }

  function FilterRules(rs: Ruleset, dir: Direction): seq<Rule>
  {
    if dir.Source? then rs.input else rs.output
  }

  lemma ApplyAppends(rs: Ruleset, op: Op, dir: Direction)
    requires op.AllowPrefix? ==> ValidNet(op.net)
    ensures FilterRules(Apply(rs, op), dir) == FilterRules(rs, dir) + OpRules(op, dir)
  {
    Associates(FilterRules(rs, dir), [], []);
  }

  /** Each direction's chain is the installed one followed by what the operations added, in order. */
  lemma {:induction false} ChainAfter(fwmark: seq<Octet>, ifname: seq<Octet>, ops: seq<Op>, dir: Direction)
    requires ValidOps(ops)
    ensures FilterRules(After(fwmark, ifname, ops), dir) == RestrictRules(dir, ifname, fwmark) + TailRules(ops, dir)
    decreases |ops|
  {
    if ops == [] {
      Associates(RestrictRules(dir, ifname, fwmark), [], []);
    } else {
      var before, op := ops[..|ops| - 1], ops[|ops| - 1];
      ChainAfter(fwmark, ifname, before, dir);
      ApplyAppends(After(fwmark, ifname, before), op, dir);
      Associates(RestrictRules(dir, ifname, fwmark), TailRules(before, dir), OpRules(op, dir));
    }
  }

  lemma {:induction false} PrerouteAfter(fwmark: seq<Octet>, ifname: seq<Octet>, ops: seq<Op>)
    requires ValidOps(ops)
    ensures var rs, base := After(fwmark, ifname, ops), Installed(fwmark, ifname);
            && rs.preroute == base.preroute + IsolateRules(ops)
            && rs.conntrack == base.conntrack && rs.fwmark == fwmark
    decreases |ops|
  {
    var base := Installed(fwmark, ifname);
    if ops == [] {
      Associates(base.preroute, [], []);
    } else {
      var before, op := ops[..|ops| - 1], ops[|ops| - 1];
      PrerouteAfter(fwmark, ifname, before);
      Associates(IsolateRules(before), [], []);
      if op.IsolateIpv6? {
        Associates(base.preroute, IsolateRules(before), [IsolateRule(op.ifname, op.addr)]);
      }
    }
  }

  /** The server sets hold exactly the addresses whose last operation marked them. */
  lemma {:induction false} ServersAfter(fwmark: seq<Octet>, ifname: seq<Octet>, ops: seq<Op>, ip: Ip)
    requires ValidOps(ops)
    ensures var sets := After(fwmark, ifname, ops).sets;
            ServerMarked(ops, ip)
            <==> (if To4(ip).Some? then To4(ip).value in sets.v4 else ip in sets.v6)
    ensures To4(ip).Some? ==> ip !in After(fwmark, ifname, ops).sets.v6
    decreases |ops|
  {
    if ops != [] {
      ServersAfter(fwmark, ifname, ops[..|ops| - 1], ip);
      var op := ops[|ops| - 1];
      if (op.MarkInbound? || op.ClearInbound?) && To4(ip).Some? && To4(op.ip) == To4(ip) {
        MappedInjective(ip, op.ip);
      }
    }
  }

  /** IPv4 addresses have one mapped form. */
  lemma MappedInjective(a: Ip, b: Ip)
    requires To4(a).Some? && To4(b).Some? && To4(a) == To4(b)
    ensures a == b
  {
    assert forall i :: 12 <= i < 16 ==> a[i] == a[12..][i - 12] && b[i] == b[12..][i - 12];
  }
}
