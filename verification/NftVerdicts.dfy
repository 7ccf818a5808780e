/** Which packets each hook lets through, and how it leaves them, after any sequence of control operations. */
module NftVerdicts {
  import opened Common
  import opened Nft
  import opened NftCidr
  import opened NftRules
  import opened NftFirewall

  // ---- rules added to the filter chains ----

  predicate DnsQuery(p: Packet, proto: Octet)
  {
    p.l4Proto == proto && |p.transport| >= 4 && p.transport[2..4] == DNS_PORT
  }

  /** What an allowed prefix covers, IPv4-mapped prefixes included. */
  ghost predicate Covers(n: IpNet, dir: Direction, p: Packet)
    requires ValidNet(n) && ValidPacket(p)
  {
    if |n.ip| == 4 || To4(n.ip).None? then InBlock(p, dir, n)
    else IsV4(p) && Offset(true, dir) + 16 <= |p.net| && Address(p, dir) == n.ip[12..]
  }

  ghost function OpVerdict(op: Op, dir: Direction, p: Packet): Option<VerdictKind>
    requires ValidPacket(p) && (op.AllowPrefix? ==> ValidNet(op.net))
  {
    match op
    case AllowPrefix(net) => AcceptIf(Covers(net, dir, p))
    case BlockDns =>
      if dir.Destination? && (DnsQuery(p, IPPROTO_UDP) || DnsQuery(p, IPPROTO_TCP)) then Some(Reject) else None
    case _ => None
  }

  /** The earliest operation with something to say about the packet decides. */
  ghost function TailVerdict(ops: seq<Op>, dir: Direction, p: Packet): Option<VerdictKind>
    requires ValidPacket(p) && ValidOps(ops)
  {
    if ops == [] then None
    else
      var before := TailVerdict(ops[..|ops| - 1], dir, p);
      if before.Some? then before else OpVerdict(ops[|ops| - 1], dir, p)
  }

  /** A mapped prefix is at least 96 bits long, or masking would have cleared its marker. */
  lemma MappedIsLong(n: IpNet)
    requires ValidNet(n) && |n.ip| == 16 && To4(n.ip).Some?
    ensures n.ones >= 96
  {
    var mask := CidrMask(n.ones, 16);
    assert n.ip[11] == AndBytes(n.ip, mask)[11] == n.ip[11].And(mask[11]);
    assert n.ip[11] == Byte(255) && Byte(255).b7;
  }

  lemma BlockDnsMeaning(proto: Octet, p: Packet, sets: Sets)
    ensures Run(BlockDnsRule(proto), p, [], sets)
         == Result(p, if DnsQuery(p, proto) then Some(Reject) else None)
  {
    var tail := [TransportPayload(2, 2), CmpEq(DNS_PORT), Verdict(Reject)];
    RunMatchMeta(L4Proto, [proto], tail, p, [], sets);
    MatchesExact([p.l4Proto], [proto]);
    if p.l4Proto == proto && |p.transport| >= 4 {
      var port := p.transport[2..4];
      MatchesExact(port, DNS_PORT);
      assert tail[1..] == [CmpEq(DNS_PORT), Verdict(Reject)] && tail[1..][1..] == [Verdict(Reject)];
      RunVerdict(Reject, p, port, sets);
      assert Run(tail[1..], p, port, sets)
          == if port == DNS_PORT then Run([Verdict(Reject)], p, port, sets) else Result(p, None);
    }
  }

  lemma OpRulesMeaning(op: Op, dir: Direction, p: Packet, sets: Sets)
    requires ValidPacket(p) && (op.AllowPrefix? ==> ValidNet(op.net))
    ensures RunChain(OpRules(op, dir), p, sets) == Result(p, OpVerdict(op, dir, p))
  {
    match op
    case AllowPrefix(net) =>
      if |net.ip| == 4 || To4(net.ip).None? {
        PrefixRuleMeaning(net, dir, p, sets);
      } else {
        MappedIsLong(net);
        MappedPrefixMeaning(net, dir, p, sets);
      }
      PureChain([PrefixRule(net, dir)], [OpVerdict(op, dir, p)], p, sets);
    case BlockDns =>
      if dir.Destination? {
        var udp, tcp := DnsQuery(p, IPPROTO_UDP), DnsQuery(p, IPPROTO_TCP);
        BlockDnsMeaning(IPPROTO_UDP, p, sets);
        BlockDnsMeaning(IPPROTO_TCP, p, sets);
        var vs := [if udp then Some(Reject) else None, if tcp then Some(Reject) else None];
        PureChain(OpRules(op, dir), vs, p, sets);
        assert First(vs[1..]) == vs[1];
      }
    case _ =>
  }

  lemma {:induction false} TailMeaning(ops: seq<Op>, dir: Direction, p: Packet, sets: Sets)
    requires ValidPacket(p) && ValidOps(ops)
    ensures RunChain(TailRules(ops, dir), p, sets) == Result(p, TailVerdict(ops, dir, p))
    decreases |ops|
  {
    if ops != [] {
      var before, op := ops[..|ops| - 1], ops[|ops| - 1];
      TailMeaning(before, dir, p, sets);
      OpRulesMeaning(op, dir, p, sets);
      RunChainAppend(TailRules(before, dir), OpRules(op, dir), p, sets);
    }
  }

  // ---- the filter chains ----

  /** The verdict of a restricted chain: permitted packets pass, then allowed prefixes and blocked DNS in the order
      they were added, and everything else is dropped. */
  ghost function FilterVerdict(ops: seq<Op>, dir: Direction, ifname: seq<Octet>, fwmark: seq<Octet>,
                               p: Packet, sets: Sets): VerdictKind
    requires ValidPacket(p) && ValidOps(ops)
  {
    if Permitted(p, dir, ifname, fwmark, sets) then Accept
    else if TailVerdict(ops, dir, p).Some? then TailVerdict(ops, dir, p).value
    else Drop
  }

  function FilterChain(rs: Ruleset, dir: Direction): Chain
  {
    if dir.Source? then Table(rs)[3] else Table(rs)[4]
  }

  /** After installation and any control operations, the input and output chains decide as described and leave the
      packet alone. */
  lemma FilterMeaning(fwmark: seq<Octet>, ifname: seq<Octet>, ops: seq<Op>, dir: Direction, p: Packet)
    requires ValidPacket(p) && ValidOps(ops) && |fwmark| == 4
    ensures var rs := After(fwmark, ifname, ops);
            RunBaseChain(FilterChain(rs, dir), p, rs.sets)
            == Result(p, Some(FilterVerdict(ops, dir, ifname, fwmark, p, rs.sets)))
  {
    var rs := After(fwmark, ifname, ops);
    ChainAfter(fwmark, ifname, ops, dir);
    RestrictRulesMeaning(dir, ifname, fwmark, p, rs.sets);
    TailMeaning(ops, dir, p, rs.sets);
    RunChainAppend(RestrictRules(dir, ifname, fwmark), TailRules(ops, dir), p, rs.sets);
  }

  predicate OnlyServerOps(ops: seq<Op>)
  {
    forall op <- ops :: op.MarkInbound? || op.ClearInbound?
  }

  lemma {:induction false} NoTail(ops: seq<Op>, dir: Direction, p: Packet)
    requires OnlyServerOps(ops) && ValidPacket(p) && ValidOps(ops)
    ensures TailVerdict(ops, dir, p).None?
    decreases |ops|
  {
    if ops != [] {
      NoTail(ops[..|ops| - 1], dir, p);
    }
  }

  /** The sixteen-byte form in which an address is marked or cleared. */
  function Mapped(addr: seq<Octet>): Ip
    requires |addr| == 4 || |addr| == 16
  {
    if |addr| == 16 then addr
    else seq(10, i => Byte(0)) + [Byte(255), Byte(255)] + addr
  }

  lemma MappedTo4(addr: seq<Octet>)
    requires |addr| == 4
    ensures To4(Mapped(addr)) == Some(addr)
  {
    assert Mapped(addr)[12..] == addr;
  }

  /** The packet's address is one whose last operation marked it as a server. */
  predicate WithMarkedServer(ops: seq<Op>, dir: Direction, p: Packet)
    requires ValidPacket(p)
  {
    var addr := Address(p, dir);
    && p.l4Proto == IPPROTO_UDP
    && ServerMarked(ops, Mapped(addr))
    && (IsV4(p) || To4(addr).None?)
  }

  lemma ServersCurrent(fwmark: seq<Octet>, ifname: seq<Octet>, ops: seq<Op>, dir: Direction, p: Packet)
    requires ValidPacket(p) && ValidOps(ops)
    ensures UdpWithServer(p, dir, After(fwmark, ifname, ops).sets) <==> WithMarkedServer(ops, dir, p)
  {
    FamiliesDiffer();
    var addr := Address(p, dir);
    ServersAfter(fwmark, ifname, ops, Mapped(addr));
    if IsV4(p) {
      MappedTo4(addr);
    }
  }

  /** Over any sequence of server marks and clears, a packet passes exactly when it uses the loopback or the tunnel
      interface, is UDP with a server whose last operation marked it, or carries the firewall mark. */
  lemma RestrictionExact(fwmark: seq<Octet>, ifname: seq<Octet>, ops: seq<Op>, dir: Direction, p: Packet)
    requires ValidPacket(p) && OnlyServerOps(ops) && |fwmark| == 4
    ensures ValidOps(ops)
    ensures var rs := After(fwmark, ifname, ops);
            var passes := || AtLoopback(p, dir) || AtTunnel(p, dir, ifname)
                          || WithMarkedServer(ops, dir, p) || p.mark == fwmark;
            RunBaseChain(FilterChain(rs, dir), p, rs.sets) == Result(p, Some(if passes then Accept else Drop))
  {
    FilterMeaning(fwmark, ifname, ops, dir, p);
    NoTail(ops, dir, p);
    ServersCurrent(fwmark, ifname, ops, dir, p);
  }

  /** Blocking DNS last never stops a packet that passed before, allowed prefixes included. */
  lemma BlockDnsAcceptsTheSame(fwmark: seq<Octet>, ifname: seq<Octet>, ops: seq<Op>, dir: Direction, p: Packet)
    requires ValidPacket(p) && ValidOps(ops) && |fwmark| == 4
    ensures ValidOps(ops + [BlockDns])
    ensures var rs, rs' := After(fwmark, ifname, ops), After(fwmark, ifname, ops + [BlockDns]);
            RunBaseChain(FilterChain(rs', dir), p, rs'.sets).verdict == Some(Accept)
            <==> RunBaseChain(FilterChain(rs, dir), p, rs.sets).verdict == Some(Accept)
  {
    var ops' := ops + [BlockDns];
    assert ops'[..|ops'| - 1] == ops;
    FilterMeaning(fwmark, ifname, ops, dir, p);
    FilterMeaning(fwmark, ifname, ops', dir, p);
  }
}
