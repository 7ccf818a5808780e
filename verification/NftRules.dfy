/** The rules the firewall installs, and what each of them means for a packet. */
module NftRules {
  import opened Common
  import opened Nft
  import opened NftCidr

  datatype Direction = Source | Destination

  const LOOPBACK := [Byte(0x04), Byte(0x03)]
  const RTN_LOCAL := [Byte(2), Byte(0), Byte(0), Byte(0)]
  const UNMARKED := [Byte(0), Byte(0), Byte(0), Byte(0)]
  /** The conntrack mark 0x9e4c of excluded flows. */
  const EXCLUDED := [Byte(0x4c), Byte(0x9e), Byte(0), Byte(0)]
  const DNS_PORT := [Byte(0), Byte(53)]

  predicate IsV4(p: Packet) { p.nfProto == NFPROTO_IPV4 }

  /** What the kernel guarantees of a packet that reaches an inet hook: metadata of fixed width, an IPv4 or IPv6
      header that is there in full (section 3.1 of RFC 791, section 3 of RFC 8200). */
  predicate ValidPacket(p: Packet)
  {
    && |p.mark| == 4 && |p.ctMark| == 4 && |p.iifType| == 2 && |p.oifType| == 2 && |p.sourceType| == 4
    && (|| (p.nfProto == NFPROTO_IPV4 && p.protocol == ETH_P_IP && |p.net| >= 20)
        || (p.nfProto == NFPROTO_IPV6 && p.protocol == ETH_P_IPV6 && |p.net| >= 40))
  }

  function Offset(v4: bool, dir: Direction): nat
  {
    if v4 then (if dir.Source? then 12 else 16) else (if dir.Source? then 8 else 24)
  }

  /** The source or destination address in the packet's own header. */
  function Address(p: Packet, dir: Direction): seq<Octet>
    requires ValidPacket(p)
  {
    FamiliesDiffer();
    if IsV4(p) then (if dir.Source? then p.net[12..16] else p.net[16..20])
    else (if dir.Source? then p.net[8..24] else p.net[24..40])
  }

  lemma MatchesExact(reg: seq<Octet>, data: seq<Octet>)
    requires |reg| == |data|
    ensures Matches(reg, data) <==> reg == data
  {
    assert reg[..|data|] == reg;
  }

  lemma FamiliesDiffer()
    ensures NFPROTO_IPV4 != NFPROTO_IPV6 && ETH_P_IP != ETH_P_IPV6
  {
    assert ETH_P_IP[1] != ETH_P_IPV6[1];
  }

  // ---- fragments of programs ----

  function IfMeta(key: MetaKey, data: seq<Octet>): seq<Expr> { [LoadMeta(key), CmpEq(data)] }

  function UnlessMeta(key: MetaKey, data: seq<Octet>): seq<Expr> { [LoadMeta(key), CmpNeq(data)] }

  /** The packet's address is one of the VPN servers'. */
  function IfServer(v4: bool, dir: Direction): seq<Expr>
  {
    [NetPayload(Offset(v4, dir), if v4 then 4 else 16), Lookup(if v4 then ServersV4 else ServersV6)]
  }

  function SetMarkTo(mark: seq<Octet>): seq<Expr> { [Immediate(mark), StoreMark] }

  const ACCEPT := [Verdict(Accept)]

  // ---- traffic restriction ----

  function MetaRule(key: MetaKey, data: seq<Octet>): Rule { IfMeta(key, data) + ACCEPT }

  function ServerRule(v4: bool, dir: Direction): Rule
  {
    IfMeta(Protocol, if v4 then ETH_P_IP else ETH_P_IPV6)
      + (IfMeta(L4Proto, [IPPROTO_UDP]) + (IfServer(v4, dir) + ACCEPT))
  }

  /** Rules for one direction: loopback, the tunnel, the servers over UDP, and marked traffic. */
  function RestrictRules(dir: Direction, ifname: seq<Octet>, fwmark: seq<Octet>): seq<Rule>
  {
    [MetaRule(if dir.Source? then IifType else OifType, LOOPBACK),
     MetaRule(if dir.Source? then IifName else OifName, Pad16(ifname)),
     ServerRule(true, dir),
     ServerRule(false, dir),
     MetaRule(MarkKey, fwmark)]
  }

  predicate AtLoopback(p: Packet, dir: Direction)
  {
    (if dir.Source? then p.iifType else p.oifType) == LOOPBACK
  }

  predicate AtTunnel(p: Packet, dir: Direction, ifname: seq<Octet>)
  {
    Pad16(if dir.Source? then p.iifName else p.oifName) == Pad16(ifname)
  }

  predicate UdpWithServer(p: Packet, dir: Direction, sets: Sets)
    requires ValidPacket(p)
  {
    p.l4Proto == IPPROTO_UDP && Address(p, dir) in (if IsV4(p) then sets.v4 else sets.v6)
  }

  lemma PadShorter(a: seq<Octet>, b: seq<Octet>)
    requires |a| < |b| <= 15 && Byte(0) !in b
    ensures Pad16(a) != Pad16(b)
  {
    assert Pad16(a)[|a|] == Byte(0) && Pad16(b)[|a|] == b[|a|];
  }

  /** Interface names the kernel allows (at most 15 bytes, none of them zero) are told apart. */
  lemma IfnameExact(a: seq<Octet>, b: seq<Octet>)
    requires |a| <= 15 && |b| <= 15 && Byte(0) !in a && Byte(0) !in b
    ensures Pad16(a) == Pad16(b) <==> a == b
  {
    if |a| < |b| {
      PadShorter(a, b);
    } else if |b| < |a| {
      PadShorter(b, a);
    } else {
      assert forall i :: 0 <= i < |a| ==> a[i] == Pad16(a)[i] && b[i] == Pad16(b)[i];
    }
  }

  function AcceptIf(c: bool): Option<VerdictKind> { if c then Some(Accept) else None }

  lemma MetaRuleMeaning(key: MetaKey, data: seq<Octet>, p: Packet, sets: Sets)
    requires |MetaBytes(key, p)| == |data|
    ensures Run(MetaRule(key, data), p, [], sets) == Result(p, AcceptIf(MetaBytes(key, p) == data))
  {
    RunMatchMeta(key, data, ACCEPT, p, [], sets);
    MatchesExact(MetaBytes(key, p), data);
    RunVerdict(Accept, p, data, sets);
  }

  lemma RunIfServer(v4: bool, dir: Direction, rest: seq<Expr>, p: Packet, reg: seq<Octet>, sets: Sets)
    requires ValidPacket(p) && v4 == IsV4(p)
    ensures Run(IfServer(v4, dir) + rest, p, reg, sets)
         == if Address(p, dir) in (if v4 then sets.v4 else sets.v6) then Run(rest, p, Address(p, dir), sets)
            else Result(p, None)
  {
    FamiliesDiffer();
    RunLookup(Offset(v4, dir), if v4 then 4 else 16, if v4 then ServersV4 else ServersV6, rest, p, reg, sets);
  }

  lemma ServerRuleMeaning(v4: bool, dir: Direction, p: Packet, sets: Sets)
    requires ValidPacket(p)
    ensures Run(ServerRule(v4, dir), p, [], sets)
         == Result(p, AcceptIf(IsV4(p) == v4 && UdpWithServer(p, dir, sets)))
  {
    FamiliesDiffer();
    var tail2 := IfServer(v4, dir) + ACCEPT;
    var tail1 := IfMeta(L4Proto, [IPPROTO_UDP]) + tail2;
    var proto := if v4 then ETH_P_IP else ETH_P_IPV6;
    RunMatchMeta(Protocol, proto, tail1, p, [], sets);
    MatchesExact(p.protocol, proto);
    if p.protocol == proto {
      RunMatchMeta(L4Proto, [IPPROTO_UDP], tail2, p, p.protocol, sets);
      MatchesExact([p.l4Proto], [IPPROTO_UDP]);
      RunIfServer(v4, dir, ACCEPT, p, [p.l4Proto], sets);
      RunVerdict(Accept, p, Address(p, dir), sets);
    }
  }

  /** The first verdict of a chain whose rules leave the packet alone. */
  function First(vs: seq<Option<VerdictKind>>): Option<VerdictKind>
  {
    if vs == [] then None else if vs[0].Some? then vs[0] else First(vs[1..])
  }

  lemma {:induction false} PureChain(rules: seq<Rule>, vs: seq<Option<VerdictKind>>, p: Packet, sets: Sets)
    requires |rules| == |vs|
    requires forall i :: 0 <= i < |rules| ==> Run(rules[i], p, [], sets) == Result(p, vs[i])
    ensures RunChain(rules, p, sets) == Result(p, First(vs))
    decreases |rules|
  {
    if rules != [] && vs[0].None? {
      PureChain(rules[1..], vs[1..], p, sets);
    }
  }

  lemma FirstOfFive(a: bool, b: bool, c: bool, d: bool, e: bool)
    ensures First([AcceptIf(a), AcceptIf(b), AcceptIf(c), AcceptIf(d), AcceptIf(e)])
         == AcceptIf(a || b || c || d || e)
  {
    var vs := [AcceptIf(a), AcceptIf(b), AcceptIf(c), AcceptIf(d), AcceptIf(e)];
    assert First(vs[4..]) == AcceptIf(e);
    assert vs[3..][1..] == vs[4..] && First(vs[3..]) == AcceptIf(d || e);
    assert vs[2..][1..] == vs[3..] && First(vs[2..]) == AcceptIf(c || d || e);
    assert vs[1..][1..] == vs[2..] && First(vs[1..]) == AcceptIf(b || c || d || e);
  }

  /** What the five rules let through. */
  predicate Permitted(p: Packet, dir: Direction, ifname: seq<Octet>, fwmark: seq<Octet>, sets: Sets)
    requires ValidPacket(p)
  {
    || AtLoopback(p, dir)
    || AtTunnel(p, dir, ifname)
    || UdpWithServer(p, dir, sets)
    || p.mark == fwmark
  }

  /** The restriction rules accept exactly the permitted packets, and leave the others undecided. */
  lemma RestrictRulesMeaning(dir: Direction, ifname: seq<Octet>, fwmark: seq<Octet>, p: Packet, sets: Sets)
    requires ValidPacket(p) && |fwmark| == 4
    ensures RunChain(RestrictRules(dir, ifname, fwmark), p, sets)
         == Result(p, AcceptIf(Permitted(p, dir, ifname, fwmark, sets)))
  {
    var typeKey := if dir.Source? then IifType else OifType;
    var nameKey := if dir.Source? then IifName else OifName;
    MetaRuleMeaning(typeKey, LOOPBACK, p, sets);
    MetaRuleMeaning(nameKey, Pad16(ifname), p, sets);
    ServerRuleMeaning(true, dir, p, sets);
    ServerRuleMeaning(false, dir, p, sets);
    MetaRuleMeaning(MarkKey, fwmark, p, sets);
    var c3 := IsV4(p) && UdpWithServer(p, dir, sets);
    var c4 := !IsV4(p) && UdpWithServer(p, dir, sets);
    PureChain(RestrictRules(dir, ifname, fwmark),
              [AcceptIf(AtLoopback(p, dir)), AcceptIf(AtTunnel(p, dir, ifname)),
               AcceptIf(c3), AcceptIf(c4), AcceptIf(p.mark == fwmark)], p, sets);
    FirstOfFive(AtLoopback(p, dir), AtTunnel(p, dir, ifname), c3, c4, p.mark == fwmark);
  }

  // ---- address prefixes ----

  /** A parsed prefix: the masked network address and the number of leading ones of its mask. */
  datatype IpNet = IpNet(ip: seq<Octet>, ones: nat)

  predicate ValidNet(n: IpNet)
  {
    && (|n.ip| == 4 || |n.ip| == 16)
    && n.ones <= 8 * |n.ip|
    && AndBytes(n.ip, CidrMask(n.ones, |n.ip|)) == n.ip
  }

  /** The four bytes of an IPv4 address, also when it is mapped into IPv6. */
  function To4(ip: seq<Octet>): Option<seq<Octet>>
    requires |ip| == 4 || |ip| == 16
  {
    if |ip| == 4 then Some(ip)
    else if (forall i :: 0 <= i < 10 ==> ip[i] == Byte(0)) && ip[10] == Byte(255) && ip[11] == Byte(255)
    then Some(ip[12..])
    else None
  }

  function PrefixRule(n: IpNet, dir: Direction): Rule
    requires ValidNet(n)
  {
    var v4 := To4(n.ip);
    IfMeta(NfProto, [if v4.Some? then NFPROTO_IPV4 else NFPROTO_IPV6])
      + [NetPayload(Offset(v4.Some?, dir), |n.ip|), And(CidrMask(n.ones, |n.ip|)),
         CmpEq(if v4.Some? then v4.value else n.ip), Verdict(Accept)]
  }

  /** After the family check, the program loads, masks and compares. */
  lemma RunPrefixTail(n: IpNet, offset: nat, data: seq<Octet>, p: Packet, reg: seq<Octet>, sets: Sets)
    requires ValidNet(n)
    ensures Run([NetPayload(offset, |n.ip|), And(CidrMask(n.ones, |n.ip|)), CmpEq(data), Verdict(Accept)],
                p, reg, sets)
         == var s := Slice(p.net, offset, |n.ip|);
            Result(p, AcceptIf(s.Some? && Matches(AndBytes(s.value, CidrMask(n.ones, |n.ip|)), data)))
  {
    var mask := CidrMask(n.ones, |n.ip|);
    var es := [NetPayload(offset, |n.ip|), And(mask), CmpEq(data), Verdict(Accept)];
    var s := Slice(p.net, offset, |n.ip|);
    if s.Some? {
      var masked := AndBytes(s.value, mask);
      assert es[1..] == [And(mask), CmpEq(data), Verdict(Accept)];
      assert es[1..][1..] == [CmpEq(data), Verdict(Accept)];
      assert [CmpEq(data), Verdict(Accept)][1..] == [Verdict(Accept)];
      RunVerdict(Accept, p, masked, sets);
      assert Run([CmpEq(data), Verdict(Accept)], p, masked, sets)
          == Result(p, AcceptIf(Matches(masked, data)));
      assert Run(es[1..], p, s.value, sets) == Run([CmpEq(data), Verdict(Accept)], p, masked, sets);
    }
  }

  /** The packet's address lies in the block. */
  ghost predicate InBlock(p: Packet, dir: Direction, n: IpNet)
    requires ValidPacket(p) && ValidNet(n)
  {
    |Address(p, dir)| == |n.ip| && InPrefix(Address(p, dir), n.ip, n.ones)
  }

  /** For IPv4 prefixes and IPv6 prefixes that are not IPv4-mapped, the program accepts exactly the packets
      whose address lies in the block (section 3.1 of RFC 4632, section 2.3 of RFC 4291). */
  lemma PrefixRuleMeaning(n: IpNet, dir: Direction, p: Packet, sets: Sets)
    requires ValidPacket(p) && ValidNet(n) && (|n.ip| == 4 || To4(n.ip).None?)
    ensures Run(PrefixRule(n, dir), p, [], sets) == Result(p, AcceptIf(InBlock(p, dir, n)))
  {
    FamiliesDiffer();
    var v4 := |n.ip| == 4;
    var family := if v4 then NFPROTO_IPV4 else NFPROTO_IPV6;
    var mask := CidrMask(n.ones, |n.ip|);
    var tail := [NetPayload(Offset(v4, dir), |n.ip|), And(mask), CmpEq(n.ip), Verdict(Accept)];
    assert PrefixRule(n, dir) == IfMeta(NfProto, [family]) + tail;
    RunMatchMeta(NfProto, [family], tail, p, [], sets);
    MatchesExact([p.nfProto], [family]);
    if p.nfProto == family {
      RunPrefixTail(n, Offset(v4, dir), n.ip, p, [p.nfProto], sets);
      var addr := Address(p, dir);
      MatchesExact(AndBytes(addr, mask), n.ip);
      MaskedAddress(addr, n.ip, n.ones);
    }
  }

  lemma WideMaskKeepsHead(bytes: seq<Octet>, ones: nat)
    requires |bytes| == 16 && ones >= 32
    ensures |AndBytes(bytes, CidrMask(ones, 16))| == 16 && AndBytes(bytes, CidrMask(ones, 16))[..4] == bytes[..4]
  {
    var mask := CidrMask(ones, 16);
    forall i | 0 <= i < 4 ensures AndBytes(bytes, mask)[i] == bytes[i] {
      assert mask[i] == Octet(true, true, true, true, true, true, true, true);
    }
  }

  /** An IPv4-mapped prefix (one of at least 96 bits) matches only the single IPv4 address it starts with, and only
      in packets long enough for a 16-byte load. */
  lemma MappedPrefixMeaning(n: IpNet, dir: Direction, p: Packet, sets: Sets)
    requires ValidPacket(p) && ValidNet(n) && |n.ip| == 16 && To4(n.ip).Some? && n.ones >= 96
    ensures Run(PrefixRule(n, dir), p, [], sets)
         == Result(p, AcceptIf(IsV4(p) && Offset(true, dir) + 16 <= |p.net| && Address(p, dir) == n.ip[12..]))
  {
    FamiliesDiffer();
    var mask := CidrMask(n.ones, 16);
    var data := n.ip[12..];
    var tail := [NetPayload(Offset(true, dir), 16), And(mask), CmpEq(data), Verdict(Accept)];
    assert PrefixRule(n, dir) == IfMeta(NfProto, [NFPROTO_IPV4]) + tail;
    RunMatchMeta(NfProto, [NFPROTO_IPV4], tail, p, [], sets);
    MatchesExact([p.nfProto], [NFPROTO_IPV4]);
    if IsV4(p) {
      RunPrefixTail(n, Offset(true, dir), data, p, [p.nfProto], sets);
      var s := Slice(p.net, Offset(true, dir), 16);
      if s.Some? {
        WideMaskKeepsHead(s.value, n.ones);
        assert s.value[..4] == Address(p, dir);
      }
    }
  }
}
