/** The packet-matching machine: rules are programs over one register, chains are lists of rules,
    and a hook runs its chains in priority order. */
module Nft {
  import opened Common

  /** A byte, as its bits from the most significant to the least. */
  datatype Octet = Octet(b0: bool, b1: bool, b2: bool, b3: bool, b4: bool, b5: bool, b6: bool, b7: bool)
  {
    function And(other: Octet): Octet {
      Octet(b0 && other.b0, b1 && other.b1, b2 && other.b2, b3 && other.b3,
            b4 && other.b4, b5 && other.b5, b6 && other.b6, b7 && other.b7)
    }

    predicate Bit(i: int)
      requires 0 <= i < 8
    {
      if i == 0 then b0 else if i == 1 then b1 else if i == 2 then b2 else if i == 3 then b3
      else if i == 4 then b4 else if i == 5 then b5 else if i == 6 then b6 else b7
    }
  }

  function Byte(n: nat): Octet
    requires n < 256
  {
    Octet(n / 128 % 2 == 1, n / 64 % 2 == 1, n / 32 % 2 == 1, n / 16 % 2 == 1,
          n / 8 % 2 == 1, n / 4 % 2 == 1, n / 2 % 2 == 1, n % 2 == 1)
  }

  datatype MetaKey = MarkKey | NfProto | L4Proto | Protocol | IifType | OifType | IifName | OifName

  datatype SetName = ServersV4 | ServersV6

  datatype Expr =
    | LoadMeta(key: MetaKey)
    | StoreMark
    | LoadCtMark
    | StoreCtMark
    | Immediate(data: seq<Octet>)
    | CmpEq(data: seq<Octet>)
    | CmpNeq(data: seq<Octet>)
    | NetPayload(offset: nat, len: nat)
    | TransportPayload(offset: nat, len: nat)
    | And(mask: seq<Octet>)
    | Lookup(name: SetName)
    | MatchCgroup(path: seq<Octet>)
    | LoadSourceType
    | Verdict(kind: VerdictKind)

  datatype VerdictKind = Accept | Drop | Reject

  type Rule = seq<Expr>

  /** A packet with its metadata. Multi-byte metadata is kept in the byte order the kernel loads it in;
      `net` and `transport` are the bytes from the start of the respective header; `cgroups` are the paths of
      the sending socket's control group and its ancestors; `sourceType` is the route type of the source. */
  datatype Packet = Packet(
    mark: seq<Octet>,
    ctMark: seq<Octet>,
    nfProto: Octet,
    protocol: seq<Octet>,
    l4Proto: Octet,
    iifType: seq<Octet>,
    oifType: seq<Octet>,
    iifName: seq<Octet>,
    oifName: seq<Octet>,
    cgroups: set<seq<Octet>>,
    sourceType: seq<Octet>,
    net: seq<Octet>,
    transport: seq<Octet>)

  datatype Sets = Sets(v4: set<seq<Octet>>, v6: set<seq<Octet>>)

  /** What is known about a packet after some rules: how they left it, and their verdict if any. */
  datatype Result = Result(packet: Packet, verdict: Option<VerdictKind>)

  const NFPROTO_IPV4 := Byte(2)
  const NFPROTO_IPV6 := Byte(10)
  const IPPROTO_TCP := Byte(6)
  const IPPROTO_UDP := Byte(17)
  const ETH_P_IP := [Byte(0x08), Byte(0x00)]
  const ETH_P_IPV6 := [Byte(0x86), Byte(0xdd)]

  /** An interface name as the kernel loads it: sixteen bytes, padded with zeros. */
  function Pad16(name: seq<Octet>): (r: seq<Octet>)
    ensures |r| == 16
  {
    seq(16, i requires 0 <= i < 16 => if i < |name| then name[i] else Byte(0))
  }

  function MetaBytes(key: MetaKey, p: Packet): seq<Octet>
  {
    match key
    case MarkKey => p.mark
    case NfProto => [p.nfProto]
    case L4Proto => [p.l4Proto]
    case Protocol => p.protocol
    case IifType => p.iifType
    case OifType => p.oifType
    case IifName => Pad16(p.iifName)
    case OifName => Pad16(p.oifName)
  }

  function Slice(bytes: seq<Octet>, offset: nat, len: nat): Option<seq<Octet>>
  {
    if offset + len <= |bytes| then Some(bytes[offset..offset + len]) else None
  }

  /** A comparison looks at as many bytes as its operand has. */
  predicate Matches(reg: seq<Octet>, data: seq<Octet>)
  {
    |data| <= |reg| && reg[..|data|] == data
  }

  function AndBytes(a: seq<Octet>, mask: seq<Octet>): (r: seq<Octet>)
    ensures |r| <= |a| && |r| <= |mask|
  {
    var n := if |a| < |mask| then |a| else |mask|;
    seq(n, i requires 0 <= i < n => a[i].And(mask[i]))
  }

  function SetOf(sets: Sets, name: SetName): set<seq<Octet>>
  {
    if name.ServersV4? then sets.v4 else sets.v6
  }

  /** Run a rule's program. A failed match or load ends the rule without a verdict. */
  function Run(es: seq<Expr>, p: Packet, reg: seq<Octet>, sets: Sets): Result
    decreases |es|
  {
    if es == [] then Result(p, None) else
    var rest := es[1..];
    match es[0]
    case LoadMeta(key) => Run(rest, p, MetaBytes(key, p), sets)
    case StoreMark => Run(rest, p.(mark := reg), reg, sets)
    case LoadCtMark => Run(rest, p, p.ctMark, sets)
    case StoreCtMark => Run(rest, p.(ctMark := reg), reg, sets)
    case Immediate(data) => Run(rest, p, data, sets)
    case CmpEq(data) => if Matches(reg, data) then Run(rest, p, reg, sets) else Result(p, None)
    case CmpNeq(data) => if Matches(reg, data) then Result(p, None) else Run(rest, p, reg, sets)
    case NetPayload(offset, len) =>
      var s := Slice(p.net, offset, len);
      if s.Some? then Run(rest, p, s.value, sets) else Result(p, None)
    case TransportPayload(offset, len) =>
      var s := Slice(p.transport, offset, len);
      if s.Some? then Run(rest, p, s.value, sets) else Result(p, None)
    case And(mask) => Run(rest, p, AndBytes(reg, mask), sets)
    case Lookup(name) => if reg in SetOf(sets, name) then Run(rest, p, reg, sets) else Result(p, None)
    case MatchCgroup(path) => if path in p.cgroups then Run(rest, p, reg, sets) else Result(p, None)
    case LoadSourceType => Run(rest, p, p.sourceType, sets)
    case Verdict(kind) => Result(p, Some(kind))
  }

  /** Rules of a chain run in order until one gives a verdict. */
  function RunChain(rules: seq<Rule>, p: Packet, sets: Sets): Result
    decreases |rules|
  {
    if rules == [] then Result(p, None) else
    var r := Run(rules[0], p, [], sets);
    if r.verdict.Some? then r else RunChain(rules[1..], r.packet, sets)
  }

  datatype Hook = Prerouting | Input | Output

  datatype Chain = Chain(hook: Hook, priority: int, policy: VerdictKind, rules: seq<Rule>)

  function RunBaseChain(c: Chain, p: Packet, sets: Sets): (r: Result)
    ensures r.verdict.Some?
  {
    var r := RunChain(c.rules, p, sets);
    if r.verdict.Some? then r else r.(verdict := Some(c.policy))
  }

  function InsertByPriority(c: Chain, cs: seq<Chain>): seq<Chain>
  {
    if cs == [] || c.priority < cs[0].priority then [c] + cs
    else [cs[0]] + InsertByPriority(c, cs[1..])
  }

  /** The chains attached to a hook, lowest priority value first. */
  function ChainsAt(hook: Hook, cs: seq<Chain>): seq<Chain>
  {
    if cs == [] then []
    else if cs[|cs| - 1].hook == hook then InsertByPriority(cs[|cs| - 1], ChainsAt(hook, cs[..|cs| - 1]))
    else ChainsAt(hook, cs[..|cs| - 1])
  }

  /** An accepting chain hands the packet to the next one; any other verdict is final. */
  function RunHook(cs: seq<Chain>, p: Packet, sets: Sets): Result
    decreases |cs|
  {
    if cs == [] then Result(p, Some(Accept)) else
    var r := RunBaseChain(cs[0], p, sets);
    if r.verdict == Some(Accept) then RunHook(cs[1..], r.packet, sets) else r
  }

  // ---- reasoning about programs and chains ----

  lemma {:induction false} RunChainAppend(a: seq<Rule>, b: seq<Rule>, p: Packet, sets: Sets)
    ensures RunChain(a + b, p, sets)
         == var r := RunChain(a, p, sets); if r.verdict.Some? then r else RunChain(b, r.packet, sets)
    decreases |a|
  {
    if a == [] {
      assert a + b == b;
    } else {
      assert (a + b)[0] == a[0] && (a + b)[1..] == a[1..] + b;
      var r := Run(a[0], p, [], sets);
      if r.verdict.None? {
        RunChainAppend(a[1..], b, r.packet, sets);
      }
    }
  }

  lemma RunChainOne(rule: Rule, rest: seq<Rule>, p: Packet, sets: Sets)
    ensures RunChain([rule] + rest, p, sets)
         == var r := Run(rule, p, [], sets); if r.verdict.Some? then r else RunChain(rest, r.packet, sets)
  {
    assert ([rule] + rest)[1..] == rest;
  }

  /** Prefixing a program with one more instruction. */
  lemma RunOne(e: Expr, rest: seq<Expr>)
    ensures ([e] + rest)[0] == e && ([e] + rest)[1..] == rest
  {
  }

  lemma RunMatchMeta(key: MetaKey, data: seq<Octet>, rest: seq<Expr>, p: Packet, reg: seq<Octet>, sets: Sets)
    ensures Run([LoadMeta(key), CmpEq(data)] + rest, p, reg, sets)
         == if Matches(MetaBytes(key, p), data) then Run(rest, p, MetaBytes(key, p), sets) else Result(p, None)
  {
    var es := [LoadMeta(key), CmpEq(data)] + rest;
    assert es[1..] == [CmpEq(data)] + rest;
    RunOne(CmpEq(data), rest);
  }

  lemma RunRejectMeta(key: MetaKey, data: seq<Octet>, rest: seq<Expr>, p: Packet, reg: seq<Octet>, sets: Sets)
    ensures Run([LoadMeta(key), CmpNeq(data)] + rest, p, reg, sets)
         == if Matches(MetaBytes(key, p), data) then Result(p, None) else Run(rest, p, MetaBytes(key, p), sets)
  {
    var es := [LoadMeta(key), CmpNeq(data)] + rest;
    assert es[1..] == [CmpNeq(data)] + rest;
    RunOne(CmpNeq(data), rest);
  }

  lemma RunLookup(offset: nat, len: nat, name: SetName, rest: seq<Expr>, p: Packet, reg: seq<Octet>, sets: Sets)
    ensures Run([NetPayload(offset, len), Lookup(name)] + rest, p, reg, sets)
         == var s := Slice(p.net, offset, len);
            if s.Some? && s.value in SetOf(sets, name) then Run(rest, p, s.value, sets) else Result(p, None)
  {
    var es := [NetPayload(offset, len), Lookup(name)] + rest;
    assert es[1..] == [Lookup(name)] + rest;
    RunOne(Lookup(name), rest);
  }

  lemma RunVerdict(kind: VerdictKind, p: Packet, reg: seq<Octet>, sets: Sets)
    ensures Run([Verdict(kind)], p, reg, sets) == Result(p, Some(kind))
  {
  }

  lemma RunSetMark(data: seq<Octet>, p: Packet, reg: seq<Octet>, sets: Sets)
    ensures Run([Immediate(data), StoreMark], p, reg, sets) == Result(p.(mark := data), None)
  {
    var es := [Immediate(data), StoreMark];
    assert es[1..] == [StoreMark];
    RunOne(StoreMark, []);
    assert Run([StoreMark], p, data, sets) == Run([], p.(mark := data), data, sets);
  }
}
