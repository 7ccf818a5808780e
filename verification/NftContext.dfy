/** The firewall context: one object that the exported calls change in place. */
module NftContext {
  import opened Common
  import opened Nft
  import opened NftRules
  import opened NftFirewall

  class Context {
    var cgroupMark: seq<Rule>
    var conntrack: seq<Rule>
    var preroute: seq<Rule>
    var input: seq<Rule>
    var output: seq<Rule>
    var servers4: set<seq<Octet>>
    var servers6: set<seq<Octet>>
    var fwmark: seq<Octet>

    function View(): Ruleset
      reads this
    {
      Ruleset(cgroupMark, conntrack, preroute, input, output, Sets(servers4, servers6), fwmark)
    }

    /** Empty chains and sets. */
    constructor CreateTables()
      ensures View() == EMPTY
    {
      cgroupMark, conntrack, preroute, input, output := [], [], [], [], [];
      servers4, servers6 := {}, {};
      fwmark := UNMARKED;
    }

    /** A zero mark is refused. */
    method ApplyFwMark(mark: seq<Octet>) returns (ok: bool)
      modifies this
      ensures ok == (mark != UNMARKED)
      ensures View() == if ok then old(View()).(fwmark := mark,
                                                conntrack := old(conntrack) + Installed(mark, []).conntrack,
                                                preroute := old(preroute) + Installed(mark, []).preroute)
                        else old(View()).(fwmark := mark)
    {
      fwmark := mark;
      if mark == UNMARKED {
        return false;
      }
      conntrack := conntrack + [ConntrackRule(mark)];
      preroute := preroute + [ServerMarkRule(true, mark), ServerMarkRule(false, mark), ReplyMarkRule(mark)];
      return true;
    }

    method RestrictTraffic(ifname: seq<Octet>)
      modifies this
      ensures View() == old(View()).(input := old(input) + RestrictRules(Source, ifname, fwmark),
                                     output := old(output) + RestrictRules(Destination, ifname, fwmark))
    {
      input := input + RestrictRules(Source, ifname, fwmark);
      output := output + RestrictRules(Destination, ifname, fwmark);
    }

    /** An address that does not parse changes nothing. */
    method MarkInbound(parsed: Option<Ip>) returns (ok: bool)
      modifies this
      ensures ok == parsed.Some?
      ensures View() == if ok then Apply(old(View()), Op.MarkInbound(parsed.value)) else old(View())
    {
      if parsed.None? {
        return false;
      }
      var ip4 := To4(parsed.value);
      if ip4.Some? {
        servers4 := servers4 + {ip4.value};
      } else {
        servers6 := servers6 + {parsed.value};
      }
      return true;
    }

    method ClearInbound(parsed: Option<Ip>) returns (ok: bool)
      modifies this
      ensures ok == parsed.Some?
      ensures View() == if ok then Apply(old(View()), Op.ClearInbound(parsed.value)) else old(View())
    {
      if parsed.None? {
        return false;
      }
      var ip4 := To4(parsed.value);
      if ip4.Some? {
        servers4 := servers4 - {ip4.value};
      } else {
        servers6 := servers6 - {parsed.value};
      }
      return true;
    }

    method AllowPrefix(parsed: Option<IpNet>) returns (ok: bool)
      requires parsed.Some? ==> ValidNet(parsed.value)
      modifies this
      ensures ok == parsed.Some?
      ensures View() == if ok then Apply(old(View()), Op.AllowPrefix(parsed.value)) else old(View())
    {
      if parsed.None? {
        return false;
      }
      output := output + [PrefixRule(parsed.value, Destination)];
      input := input + [PrefixRule(parsed.value, Source)];
      return true;
    }

    method MarkCgroup(path: Path) returns (ok: bool)
      modifies this
      ensures ok == (old(fwmark) != UNMARKED)
      ensures View() == if ok then Apply(old(View()), Op.MarkCgroup(path)) else old(View())
    {
      if fwmark == UNMARKED {
        return false;
      }
      var cut := if |path| >= 512 then path[..511] else path;
      cgroupMark := cgroupMark + [CgroupRule(cut, fwmark)];
      return true;
    }

    /** Delete every rule of one control group. */
    method ResetCgroup(path: Path)
      modifies this
      ensures View() == Apply(old(View()), Op.ResetCgroup(path))
    {
      var rules, i := cgroupMark, 0;
      var kept := [];
      while i < |rules|
        invariant 0 <= i <= |rules|
        invariant kept == Without(rules[..i], Cut(path))
        invariant View() == old(View())
      {
        assert rules[..i + 1][..i] == rules[..i];
        if rules[i] == [] || rules[i][0] != MatchCgroup(Cut(path)) {
          kept := kept + [rules[i]];
        }
        i := i + 1;
      }
      assert rules[..i] == rules;
      cgroupMark := kept;
    }

    method ResetAllCgroups()
      modifies this
      ensures View() == Apply(old(View()), Op.ResetAllCgroups)
    {
      cgroupMark := [];
    }

    method IsolateIpv6(ifname: seq<Octet>, addr: Ip)
      modifies this
      ensures View() == Apply(old(View()), Op.IsolateIpv6(ifname, addr))
    {
      preroute := preroute + [IsolateRule(ifname, addr)];
    }

    method BlockDns()
      modifies this
      ensures View() == Apply(old(View()), Op.BlockDns)
    {
      output := output + [BlockDnsRule(IPPROTO_UDP), BlockDnsRule(IPPROTO_TCP)];
    }
  }

  /** Creating the tables, applying a mark and restricting traffic leaves exactly the installed rule set. */
  method BringUp(mark: seq<Octet>, ifname: seq<Octet>) returns (ctx: Context)
    requires mark != UNMARKED
    ensures fresh(ctx) && ctx.View() == Installed(mark, ifname)
  {
    ctx := new Context.CreateTables();
    var ok := ctx.ApplyFwMark(mark);
    ctx.RestrictTraffic(ifname);
  }
}
