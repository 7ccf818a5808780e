/** Traffic excluded from the tunnel, over whole runs of packets: what gets marked on the way out,
    what conntrack remembers, and what comes back in. */
module NftFlows {
  import opened Common
  import opened Nft
  import opened NftRules
  import opened NftFirewall
  import opened NftVerdicts

  // ---- control groups ----

  function CgroupRules(paths: seq<Path>, fwmark: seq<Octet>): seq<Rule>
  {
    if paths == [] then []
    else CgroupRules(paths[..|paths| - 1], fwmark) + [CgroupRule(paths[|paths| - 1], fwmark)]
  }

  function Remove(paths: seq<Path>, path: Path): seq<Path>
  {
    if paths == [] then []
    else Remove(paths[..|paths| - 1], path)
         + if paths[|paths| - 1] == path then [] else [paths[|paths| - 1]]
  }

  function MarkedPaths(ops: seq<Op>): seq<Path>
  {
    if ops == [] then [] else
    var before := MarkedPaths(ops[..|ops| - 1]);
    match ops[|ops| - 1]
    case MarkCgroup(path) => before + [Cut(path)]
    case ResetCgroup(path) => Remove(before, Cut(path))
    case ResetAllCgroups => []
    case _ => before
  }

  lemma {:induction false} RemoveMembers(paths: seq<Path>, path: Path, x: Path)
    ensures x in Remove(paths, path) <==> x in paths && x != path
    decreases |paths|
  {
    if paths != [] {
      RemoveMembers(paths[..|paths| - 1], path, x);
      assert paths == paths[..|paths| - 1] + [paths[|paths| - 1]];
    }
  }

  lemma {:induction false} WithoutCgroup(paths: seq<Path>, fwmark: seq<Octet>, path: Path)
    ensures Without(CgroupRules(paths, fwmark), path) == CgroupRules(Remove(paths, path), fwmark)
    decreases |paths|
  {
    if paths != [] {
      var front, last := paths[..|paths| - 1], paths[|paths| - 1];
      WithoutCgroup(front, fwmark, path);
      var rules := CgroupRules(paths, fwmark);
      assert rules[..|rules| - 1] == CgroupRules(front, fwmark);
      assert ForCgroup(CgroupRule(last, fwmark), path) <==> last == path;
      if last != path {
        var kept := Remove(paths, path);
        assert kept[..|kept| - 1] == Remove(front, path);
      } else {
        assert Remove(front, path) + [] == Remove(front, path);
      }
    }
  }

  /** The marking chain holds one rule for each marked control group. */
  lemma {:induction false} CgroupRulesAfter(fwmark: seq<Octet>, ifname: seq<Octet>, ops: seq<Op>)
    requires ValidOps(ops)
    ensures After(fwmark, ifname, ops).cgroupMark == CgroupRules(MarkedPaths(ops), fwmark)
    decreases |ops|
  {
    if ops != [] {
      var before, op := ops[..|ops| - 1], ops[|ops| - 1];
      CgroupRulesAfter(fwmark, ifname, before);
      if op.MarkCgroup? {
        PrerouteAfter(fwmark, ifname, before);
        var paths := MarkedPaths(ops);
        assert paths[..|paths| - 1] == MarkedPaths(before);
      } else if op.ResetCgroup? {
        WithoutCgroup(MarkedPaths(before), fwmark, Cut(op.path));
      }
    }
  }

  /** Marked control groups are those whose last operation marked them. */
  lemma {:induction false} MarkedPathsAfter(ops: seq<Op>, path: Path)
    ensures path in MarkedPaths(ops) <==> CgroupMarked(ops, path)
    decreases |ops|
  {
    if ops != [] {
      var before, op := ops[..|ops| - 1], ops[|ops| - 1];
      MarkedPathsAfter(before, path);
      if op.ResetCgroup? {
        RemoveMembers(MarkedPaths(before), Cut(op.path), path);
      }
    }
  }

  // ---- what each chain does to a packet ----

  lemma CgroupRuleMeaning(path: Path, fwmark: seq<Octet>, p: Packet, sets: Sets)
    requires ValidPacket(p)
    ensures Run(CgroupRule(path, fwmark), p, [], sets)
         == Result(if path in p.cgroups && p.mark == UNMARKED && p.oifType != LOOPBACK
                   then p.(mark := fwmark) else p, None)
  {
    var tail2 := UnlessMeta(OifType, LOOPBACK) + SetMarkTo(fwmark);
    var tail1 := IfMeta(MarkKey, UNMARKED) + tail2;
    RunOne(MatchCgroup(path), tail1);
    RunMatchMeta(MarkKey, UNMARKED, tail2, p, [], sets);
    MatchesExact(p.mark, UNMARKED);
    RunRejectMeta(OifType, LOOPBACK, SetMarkTo(fwmark), p, p.mark, sets);
    MatchesExact(p.oifType, LOOPBACK);
    RunSetMark(fwmark, p, p.oifType, sets);
  }

  predicate InSome(p: Packet, paths: seq<Path>)
  {
    exists path <- paths :: path in p.cgroups
  }

  function MarkIf(c: bool, p: Packet, fwmark: seq<Octet>): Packet
  {
    if c then p.(mark := fwmark) else p
  }

  lemma {:induction false} CgroupChainMeaning(paths: seq<Path>, fwmark: seq<Octet>, p: Packet, sets: Sets)
    requires ValidPacket(p) && |fwmark| == 4
    ensures RunChain(CgroupRules(paths, fwmark), p, sets)
         == Result(MarkIf(p.mark == UNMARKED && p.oifType != LOOPBACK && InSome(p, paths), p, fwmark), None)
    decreases |paths|
  {
    if paths != [] {
      var front, last := paths[..|paths| - 1], paths[|paths| - 1];
      assert InSome(p, paths) <==> InSome(p, front) || last in p.cgroups by {
        assert paths == front + [last];
      }
      CgroupChainMeaning(front, fwmark, p, sets);
      var p1 := RunChain(CgroupRules(front, fwmark), p, sets).packet;
      CgroupRuleMeaning(last, fwmark, p1, sets);
      RunChainAppend(CgroupRules(front, fwmark), [CgroupRule(last, fwmark)], p, sets);
      RunChainOne(CgroupRule(last, fwmark), [], p1, sets);
      assert [CgroupRule(last, fwmark)] + [] == [CgroupRule(last, fwmark)];
    }
  }

  lemma ConntrackChainMeaning(fwmark: seq<Octet>, p: Packet, sets: Sets)
    requires ValidPacket(p) && |fwmark| == 4
    ensures RunChain([ConntrackRule(fwmark)], p, sets)
         == Result(if p.mark == fwmark then p.(ctMark := EXCLUDED) else p, None)
  {
    var tail := [Immediate(EXCLUDED), StoreCtMark];
    RunMatchMeta(MarkKey, fwmark, tail, p, [], sets);
    MatchesExact(p.mark, fwmark);
    assert tail[1..] == [StoreCtMark];
    RunOne(StoreCtMark, []);
    assert Run([StoreCtMark], p, EXCLUDED, sets) == Run([], p.(ctMark := EXCLUDED), EXCLUDED, sets);
    RunChainOne(ConntrackRule(fwmark), [], p, sets);
    assert [ConntrackRule(fwmark)] + [] == [ConntrackRule(fwmark)];
  }

  lemma ServerMarkMeaning(v4: bool, fwmark: seq<Octet>, p: Packet, sets: Sets)
    requires ValidPacket(p)
    ensures Run(ServerMarkRule(v4, fwmark), p, [], sets)
         == Result(MarkIf(IsV4(p) == v4 && UdpWithServer(p, Source, sets), p, fwmark), None)
  {
    FamiliesDiffer();
    var family := if v4 then NFPROTO_IPV4 else NFPROTO_IPV6;
    var tail2 := IfServer(v4, Source) + SetMarkTo(fwmark);
    var tail1 := IfMeta(L4Proto, [IPPROTO_UDP]) + tail2;
    RunMatchMeta(NfProto, [family], tail1, p, [], sets);
    MatchesExact([p.nfProto], [family]);
    if p.nfProto == family {
      RunMatchMeta(L4Proto, [IPPROTO_UDP], tail2, p, [p.nfProto], sets);
      MatchesExact([p.l4Proto], [IPPROTO_UDP]);
      RunIfServer(v4, Source, SetMarkTo(fwmark), p, [p.l4Proto], sets);
      RunSetMark(fwmark, p, Address(p, Source), sets);
    }
  }

  lemma ReplyMarkMeaning(fwmark: seq<Octet>, p: Packet, sets: Sets)
    requires ValidPacket(p)
    ensures Run(ReplyMarkRule(fwmark), p, [], sets) == Result(MarkIf(p.ctMark == EXCLUDED, p, fwmark), None)
  {
    var rule := ReplyMarkRule(fwmark);
    assert rule[1..] == [CmpEq(EXCLUDED)] + SetMarkTo(fwmark);
    RunOne(CmpEq(EXCLUDED), SetMarkTo(fwmark));
    MatchesExact(p.ctMark, EXCLUDED);
    RunSetMark(fwmark, p, p.ctMark, sets);
    assert Run(rule[1..], p, p.ctMark, sets)
        == if p.ctMark == EXCLUDED then Run(SetMarkTo(fwmark), p, p.ctMark, sets) else Result(p, None);
  }

  predicate IsolatedBy(ifname: seq<Octet>, addr: seq<Octet>, p: Packet)
    requires ValidPacket(p)
  {
    && !IsV4(p)
    && Pad16(p.iifName) != Pad16(ifname)
    && p.sourceType != RTN_LOCAL
    && Address(p, Destination) == addr
  }

  /** Some isolated tunnel address is the packet's destination, from outside the tunnel. */
  predicate Isolated(ops: seq<Op>, p: Packet)
    requires ValidPacket(p)
  {
    exists op <- ops :: op.IsolateIpv6? && IsolatedBy(op.ifname, op.addr, p)
  }

  lemma IsolateRuleMeaning(ifname: seq<Octet>, addr: Ip, p: Packet, sets: Sets)
    requires ValidPacket(p)
    ensures Run(IsolateRule(ifname, addr), p, [], sets)
         == Result(p, if IsolatedBy(ifname, addr, p) then Some(Drop) else None)
  {
    FamiliesDiffer();
    var tail2 := [LoadSourceType, CmpNeq(RTN_LOCAL), NetPayload(24, 16), CmpEq(addr), Verdict(Drop)];
    var tail1 := UnlessMeta(IifName, Pad16(ifname)) + tail2;
    RunMatchMeta(NfProto, [NFPROTO_IPV6], tail1, p, [], sets);
    MatchesExact([p.nfProto], [NFPROTO_IPV6]);
    RunRejectMeta(IifName, Pad16(ifname), tail2, p, [p.nfProto], sets);
    MatchesExact(Pad16(p.iifName), Pad16(ifname));
    if p.nfProto == NFPROTO_IPV6 {
      IsolateTail(addr, p, Pad16(p.iifName), sets);
    }
  }

  lemma IsolateTail(addr: Ip, p: Packet, reg: seq<Octet>, sets: Sets)
    requires ValidPacket(p) && !IsV4(p)
    ensures Run([LoadSourceType, CmpNeq(RTN_LOCAL), NetPayload(24, 16), CmpEq(addr), Verdict(Drop)], p, reg, sets)
         == Result(p, if p.sourceType != RTN_LOCAL && Address(p, Destination) == addr then Some(Drop) else None)
  {
    var e2 := [NetPayload(24, 16), CmpEq(addr), Verdict(Drop)];
    var e1 := [CmpNeq(RTN_LOCAL)] + e2;
    assert [LoadSourceType] + e1
        == [LoadSourceType, CmpNeq(RTN_LOCAL), NetPayload(24, 16), CmpEq(addr), Verdict(Drop)];
    RunOne(LoadSourceType, e1);
    RunOne(CmpNeq(RTN_LOCAL), e2);
    MatchesExact(p.sourceType, RTN_LOCAL);
    DropDestination(addr, p, p.sourceType, sets);
    assert Run(e1, p, p.sourceType, sets)
        == if p.sourceType == RTN_LOCAL then Result(p, None) else Run(e2, p, p.sourceType, sets);
  }

  lemma DropDestination(addr: Ip, p: Packet, reg: seq<Octet>, sets: Sets)
    requires ValidPacket(p) && !IsV4(p)
    ensures Run([NetPayload(24, 16), CmpEq(addr), Verdict(Drop)], p, reg, sets)
         == Result(p, if Address(p, Destination) == addr then Some(Drop) else None)
  {
    var dest := Address(p, Destination);
    var e4 := [Verdict(Drop)];
    var e3 := [CmpEq(addr)] + e4;
    assert [NetPayload(24, 16)] + e3 == [NetPayload(24, 16), CmpEq(addr), Verdict(Drop)];
    RunOne(NetPayload(24, 16), e3);
    RunOne(CmpEq(addr), e4);
    MatchesExact(dest, addr);
    RunVerdict(Drop, p, dest, sets);
    assert Run(e3, p, dest, sets) == Result(p, if dest == addr then Some(Drop) else None);
  }

  lemma {:induction false} IsolateChainMeaning(ops: seq<Op>, p: Packet, sets: Sets)
    requires ValidPacket(p)
    ensures RunChain(IsolateRules(ops), p, sets) == Result(p, if Isolated(ops, p) then Some(Drop) else None)
    decreases |ops|
  {
    if ops != [] {
      var front, op := ops[..|ops| - 1], ops[|ops| - 1];
      assert ops == front + [op];
      IsolateChainMeaning(front, p, sets);
      if op.IsolateIpv6? {
        var rule := IsolateRule(op.ifname, op.addr);
        IsolateRuleMeaning(op.ifname, op.addr, p, sets);
        RunChainAppend(IsolateRules(front), [rule], p, sets);
        PureChain([rule], [if IsolatedBy(op.ifname, op.addr, p) then Some(Drop) else None], p, sets);
      } else {
        assert IsolateRules(front) + [] == IsolateRules(front);
      }
    }
  }

  // ---- the hooks ----

  /** The packet is sent by a marked control group, unmarked and not over the loopback interface. */
  ghost predicate Excluded(ops: seq<Op>, p: Packet)
  {
    p.mark == UNMARKED && p.oifType != LOOPBACK && exists path <- p.cgroups :: CgroupMarked(ops, path)
  }

  /** The packet as it is when its flow is tracked and when it is filtered. */
  ghost function Marked(ops: seq<Op>, p: Packet, fwmark: seq<Octet>): Packet
  {
    MarkIf(Excluded(ops, p), p, fwmark)
  }

  ghost function Tracked(p: Packet, fwmark: seq<Octet>): Packet
  {
    if p.mark == fwmark then p.(ctMark := EXCLUDED) else p
  }

  lemma AttachOne(hook: Hook, front: seq<Chain>, c: Chain)
    ensures ChainsAt(hook, front + [c])
         == if c.hook == hook then InsertByPriority(c, ChainsAt(hook, front)) else ChainsAt(hook, front)
  {
    assert (front + [c])[..|front|] == front;
  }

  function OnlyIf(c: bool, cs: seq<Chain>): seq<Chain> { if c then cs else [] }

  /** Leaving packets meet the marking chain, then tracking, then the filter. */
  lemma HookOrder(rs: Ruleset)
    ensures ChainsAt(Output, Table(rs)) == [Table(rs)[0], Table(rs)[1], Table(rs)[4]]
    ensures ChainsAt(Prerouting, Table(rs)) == [Table(rs)[2]]
    ensures ChainsAt(Input, Table(rs)) == [Table(rs)[3]]
  {
    var t := Table(rs);
    var t1, t2 := [] + [t[0]], [] + [t[0]] + [t[1]];
    var t3 := t2 + [t[2]];
    var t4 := t3 + [t[3]];
    assert t4 + [t[4]] == t;
    forall hook ensures ChainsAt(hook, t2) == OnlyIf(hook.Output?, [t[0], t[1]]) {
      AttachOne(hook, [], t[0]);
      AttachOne(hook, t1, t[1]);
      assert [t[0]][1..] == [];
      assert InsertByPriority(t[1], []) == [t[1]];
    }
    forall hook ensures ChainsAt(hook, t) == if hook.Output? then InsertByPriority(t[4], [t[0], t[1]])
                                             else if hook.Input? then [t[3]] else [t[2]] {
      AttachOne(hook, t2, t[2]);
      AttachOne(hook, t3, t[3]);
      AttachOne(hook, t4, t[4]);
    }
    assert [t[0], t[1]][1..] == [t[1]] && [t[1]][1..] == [];
    assert InsertByPriority(t[4], []) == [t[4]];
    assert InsertByPriority(t[4], [t[1]]) == [t[1], t[4]];
  }

  /** Leaving packets are marked if excluded, tracked if marked, and then filtered. */
  lemma OutputHookMeaning(fwmark: seq<Octet>, ifname: seq<Octet>, ops: seq<Op>, p: Packet)
    requires ValidPacket(p) && ValidOps(ops) && |fwmark| == 4
    ensures var rs := After(fwmark, ifname, ops);
            var q := Tracked(Marked(ops, p, fwmark), fwmark);
            RunHook(ChainsAt(Output, Table(rs)), p, rs.sets)
            == Result(q, Some(FilterVerdict(ops, Destination, ifname, fwmark, q, rs.sets)))
  {
    var rs := After(fwmark, ifname, ops);
    HookOrder(rs);
    CgroupRulesAfter(fwmark, ifname, ops);
    PrerouteAfter(fwmark, ifname, ops);
    assert InSome(p, MarkedPaths(ops)) <==> exists path <- p.cgroups :: CgroupMarked(ops, path) by {
      forall path ensures path in MarkedPaths(ops) <==> CgroupMarked(ops, path) {
        MarkedPathsAfter(ops, path);
      }
    }
    CgroupChainMeaning(MarkedPaths(ops), fwmark, p, rs.sets);
    var p1 := Marked(ops, p, fwmark);
    ConntrackChainMeaning(fwmark, p1, rs.sets);
    var q := Tracked(p1, fwmark);
    FilterMeaning(fwmark, ifname, ops, Destination, q);
    ThreeChains(Table(rs)[0], Table(rs)[1], Table(rs)[4], p, p1, q, rs.sets);
  }

  lemma ThreeChains(a: Chain, b: Chain, c: Chain, p: Packet, p1: Packet, q: Packet, sets: Sets)
    requires RunBaseChain(a, p, sets) == Result(p1, Some(Accept))
    requires RunBaseChain(b, p1, sets) == Result(q, Some(Accept))
    requires RunBaseChain(c, q, sets).packet == q
    ensures RunHook([a, b, c], p, sets) == RunBaseChain(c, q, sets)
  {
    assert [a, b, c][1..] == [b, c] && [b, c][1..] == [c] && [c][1..] == [];
    assert RunHook([c], q, sets) == RunBaseChain(c, q, sets);
    assert RunHook([b, c], p1, sets) == RunHook([c], q, sets);
  }

  /** Arriving packets of servers and of excluded flows are marked; isolated ones are dropped. */
  lemma PrerouteHookMeaning(fwmark: seq<Octet>, ifname: seq<Octet>, ops: seq<Op>, p: Packet)
    requires ValidPacket(p) && ValidOps(ops) && |fwmark| == 4
    ensures var rs := After(fwmark, ifname, ops);
            var q := MarkIf(UdpWithServer(p, Source, rs.sets) || p.ctMark == EXCLUDED, p, fwmark);
            RunHook(ChainsAt(Prerouting, Table(rs)), p, rs.sets)
            == Result(q, Some(if Isolated(ops, p) then Drop else Accept))
  {
    var rs := After(fwmark, ifname, ops);
    HookOrder(rs);
    PrerouteAfter(fwmark, ifname, ops);
    var base := Installed(fwmark, ifname).preroute;
    var q := MarkIf(UdpWithServer(p, Source, rs.sets) || p.ctMark == EXCLUDED, p, fwmark);
    MarkingRules(fwmark, p, rs.sets);
    IsolateChainMeaning(ops, q, rs.sets);
    assert Isolated(ops, q) <==> Isolated(ops, p) by {
      assert forall op <- ops :: op.IsolateIpv6? ==>
        (IsolatedBy(op.ifname, op.addr, q) <==> IsolatedBy(op.ifname, op.addr, p));
    }
    RunChainAppend(base, IsolateRules(ops), p, rs.sets);
    assert [Table(rs)[2]][1..] == [];
  }

  lemma MarkingRules(fwmark: seq<Octet>, p: Packet, sets: Sets)
    requires ValidPacket(p) && |fwmark| == 4
    ensures RunChain([ServerMarkRule(true, fwmark), ServerMarkRule(false, fwmark), ReplyMarkRule(fwmark)], p, sets)
         == Result(MarkIf(UdpWithServer(p, Source, sets) || p.ctMark == EXCLUDED, p, fwmark), None)
  {
    var r4, r6, r := ServerMarkRule(true, fwmark), ServerMarkRule(false, fwmark), ReplyMarkRule(fwmark);
    assert [r4, r6, r] == [r4] + ([r6] + ([r] + []));
    ServerMarkMeaning(true, fwmark, p, sets);
    var p1 := MarkIf(IsV4(p) && UdpWithServer(p, Source, sets), p, fwmark);
    ServerMarkMeaning(false, fwmark, p1, sets);
    var p2 := MarkIf(!IsV4(p1) && UdpWithServer(p1, Source, sets), p1, fwmark);
    ReplyMarkMeaning(fwmark, p2, sets);
    RunChainOne(r, [], p2, sets);
    RunChainOne(r6, [r] + [], p1, sets);
    RunChainOne(r4, [r6] + ([r] + []), p, sets);
  }
}
