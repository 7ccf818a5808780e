/** Runs of packets on any number of flows, interleaved with control operations and expiring flows. */
module NftRuns {
  import opened Common
  import opened Nft
  import opened NftRules
  import opened NftFirewall
  import opened NftVerdicts
  import opened NftFlows

  type Flow = nat

  datatype Event =
    | Control(op: Op)
    | Outbound(flow: Flow, packet: Packet)
    | Inbound(flow: Flow, packet: Packet)
    | Expire(flow: Flow)

  /** Control operations so far, and the conntrack mark of each known flow. */
  datatype World = World(ops: seq<Op>, ct: map<Flow, seq<Octet>>)

  /** The firewall mark and the tunnel interface the firewall was brought up with. */
  datatype Setup = Setup(fwmark: seq<Octet>, ifname: seq<Octet>)

  predicate ValidSetup(c: Setup) { |c.fwmark| == 4 && c.fwmark != UNMARKED }

  function CtMark(w: World, flow: Flow): seq<Octet>
  {
    if flow in w.ct then w.ct[flow] else UNMARKED
  }

  /** Conntrack attaches the flow's mark before any of the chains run. */
  function OnFlow(w: World, flow: Flow, p: Packet): Packet
  {
    p.(ctMark := CtMark(w, flow))
  }

  function Sent(c: Setup, w: World, flow: Flow, p: Packet): Result
    requires ValidOps(w.ops)
  {
    var rs := After(c.fwmark, c.ifname, w.ops);
    RunHook(ChainsAt(Output, Table(rs)), OnFlow(w, flow, p), rs.sets)
  }

  function Received(c: Setup, w: World, flow: Flow, p: Packet): Result
    requires ValidOps(w.ops)
  {
    var rs := After(c.fwmark, c.ifname, w.ops);
    var r := RunHook(ChainsAt(Prerouting, Table(rs)), OnFlow(w, flow, p), rs.sets);
    if r.verdict == Some(Accept) then RunHook(ChainsAt(Input, Table(rs)), r.packet, rs.sets) else r
  }

  /** A dropped packet does not open a flow. */
  function Remember(w: World, flow: Flow, r: Result): World
  {
    if r.verdict == Some(Accept) || flow in w.ct then w.(ct := w.ct[flow := r.packet.ctMark]) else w
  }

  predicate ValidEvent(e: Event)
  {
    match e
    case Control(op) => op.AllowPrefix? ==> ValidNet(op.net)
    case Outbound(_, p) => ValidPacket(p)
    case Inbound(_, p) => ValidPacket(p)
    case Expire(_) => true
  }

  function Step(c: Setup, w: World, e: Event): World
    requires ValidOps(w.ops) && ValidEvent(e)
  {
    match e
    case Control(op) => w.(ops := w.ops + [op])
    case Outbound(flow, p) => Remember(w, flow, Sent(c, w, flow, p))
    case Inbound(flow, p) => Remember(w, flow, Received(c, w, flow, p))
    case Expire(flow) => w.(ct := w.ct - {flow})
  }

  /** Flows are unmarked or excluded. */
  predicate Inv(w: World)
  {
    ValidOps(w.ops) && forall f <- w.ct :: w.ct[f] == UNMARKED || w.ct[f] == EXCLUDED
  }

  ghost predicate IsRun(c: Setup, ws: seq<World>, es: seq<Event>)
  {
    && |ws| == |es| + 1
    && ws[0] == World([], map[])
    && forall i :: 0 <= i < |es| ==>
         ValidEvent(es[i]) && ValidOps(ws[i].ops) && ws[i + 1] == Step(c, ws[i], es[i])
  }

  // ---- one packet ----

  /** Sending marks the flow exactly when the packet leaves with the firewall mark. */
  ghost predicate LeavesMarked(c: Setup, w: World, p: Packet)
  {
    p.mark == c.fwmark || Excluded(w.ops, p)
  }

  lemma SentMeaning(c: Setup, w: World, flow: Flow, p: Packet)
    requires ValidSetup(c) && Inv(w) && ValidPacket(p)
    ensures var r := Sent(c, w, flow, p);
            && r.packet.ctMark == (if LeavesMarked(c, w, p) then EXCLUDED else CtMark(w, flow))
            && (LeavesMarked(c, w, p) ==> r.verdict == Some(Accept) && r.packet.mark == c.fwmark)
  {
    OutputHookMeaning(c.fwmark, c.ifname, w.ops, OnFlow(w, flow, p));
  }

  /** An arriving packet of an excluded flow is marked and accepted, unless it is isolated. */
  lemma ReceivedMeaning(c: Setup, w: World, flow: Flow, p: Packet)
    requires ValidSetup(c) && Inv(w) && ValidPacket(p)
    ensures var r := Received(c, w, flow, p);
            && r.packet.ctMark == CtMark(w, flow)
            && (Isolated(w.ops, p) ==> r.verdict == Some(Drop))
            && (CtMark(w, flow) == EXCLUDED && !Isolated(w.ops, p) ==>
                  r.verdict == Some(Accept) && r.packet.mark == c.fwmark)
  {
    var rs := After(c.fwmark, c.ifname, w.ops);
    var q := OnFlow(w, flow, p);
    PrerouteHookMeaning(c.fwmark, c.ifname, w.ops, q);
    IsolationIgnoresFlow(w.ops, p, q);
    var r := RunHook(ChainsAt(Prerouting, Table(rs)), q, rs.sets);
    if r.verdict == Some(Accept) {
      HookOrder(rs);
      FilterMeaning(c.fwmark, c.ifname, w.ops, Source, r.packet);
      OneChain(Table(rs)[3], r.packet, rs.sets);
    }
  }

  lemma IsolationIgnoresFlow(ops: seq<Op>, p: Packet, q: Packet)
    requires ValidPacket(p) && ValidPacket(q) && q == p.(ctMark := q.ctMark)
    ensures Isolated(ops, p) <==> Isolated(ops, q)
  {
    assert forall op <- ops :: op.IsolateIpv6? ==>
      (IsolatedBy(op.ifname, op.addr, q) <==> IsolatedBy(op.ifname, op.addr, p));
  }

  lemma OneChain(chain: Chain, p: Packet, sets: Sets)
    ensures RunHook([chain], p, sets) == RunBaseChain(chain, p, sets)
  {
    assert [chain][1..] == [];
  }

  // ---- whole runs ----

  lemma StepKeepsInv(c: Setup, w: World, e: Event)
    requires ValidSetup(c) && Inv(w) && ValidEvent(e)
    ensures Inv(Step(c, w, e))
  {
    match e
    case Control(_) =>
    case Outbound(flow, p) => SentMeaning(c, w, flow, p);
    case Inbound(flow, p) => ReceivedMeaning(c, w, flow, p);
    case Expire(_) =>
  }

  lemma {:induction false} RunInv(c: Setup, ws: seq<World>, es: seq<Event>, n: nat)
    requires ValidSetup(c) && IsRun(c, ws, es) && n < |ws|
    ensures Inv(ws[n])
  {
    if n > 0 {
      RunInv(c, ws, es, n - 1);
      StepKeepsInv(c, ws[n - 1], es[n - 1]);
    }
  }

  /** Every packet of an excluded control group passes, whatever happened before it. */
  lemma ExcludedPasses(c: Setup, ws: seq<World>, es: seq<Event>, i: nat)
    requires ValidSetup(c) && IsRun(c, ws, es) && i < |es|
    requires es[i].Outbound? && Excluded(ws[i].ops, es[i].packet)
    ensures Sent(c, ws[i], es[i].flow, es[i].packet).verdict == Some(Accept)
    ensures Sent(c, ws[i], es[i].flow, es[i].packet).packet.mark == c.fwmark
    ensures CtMark(ws[i + 1], es[i].flow) == EXCLUDED
  {
    RunInv(c, ws, es, i);
    SentMeaning(c, ws[i], es[i].flow, es[i].packet);
  }

  lemma FlowStaysExcluded(c: Setup, w: World, e: Event, flow: Flow)
    requires ValidSetup(c) && Inv(w) && ValidEvent(e)
    requires CtMark(w, flow) == EXCLUDED && e != Expire(flow)
    ensures CtMark(Step(c, w, e), flow) == EXCLUDED
  {
    match e
    case Control(_) =>
    case Outbound(f, p) => SentMeaning(c, w, f, p);
    case Inbound(f, p) => ReceivedMeaning(c, w, f, p);
    case Expire(_) =>
  }

  lemma {:induction false} ExcludedUntilExpiry(c: Setup, ws: seq<World>, es: seq<Event>, i: nat, j: nat, flow: Flow)
    requires ValidSetup(c) && IsRun(c, ws, es) && i <= j < |ws|
    requires CtMark(ws[i], flow) == EXCLUDED
    requires forall k :: i <= k < j ==> es[k] != Expire(flow)
    ensures CtMark(ws[j], flow) == EXCLUDED
    decreases j
  {
    if i < j {
      ExcludedUntilExpiry(c, ws, es, i, j - 1, flow);
      RunInv(c, ws, es, j - 1);
      FlowStaysExcluded(c, ws[j - 1], es[j - 1], flow);
    }
  }

  /** Once an excluded packet has left on a flow, every later packet arriving on it is re-marked and accepted, as long
      as conntrack remembers the flow: exactly unless it is aimed at an isolated tunnel address. */
  lemma RepliesPass(c: Setup, ws: seq<World>, es: seq<Event>, i: nat, j: nat)
    requires ValidSetup(c) && IsRun(c, ws, es) && i < j < |es|
    requires es[i].Outbound? && Excluded(ws[i].ops, es[i].packet)
    requires es[j].Inbound? && es[j].flow == es[i].flow
    requires forall k :: i < k < j ==> es[k] != Expire(es[i].flow)
    ensures var r := Received(c, ws[j], es[j].flow, es[j].packet);
            if Isolated(ws[j].ops, es[j].packet) then r.verdict == Some(Drop)
            else r.verdict == Some(Accept) && r.packet.mark == c.fwmark
  {
    ExcludedPasses(c, ws, es, i);
    ExcludedUntilExpiry(c, ws, es, i + 1, j, es[i].flow);
    RunInv(c, ws, es, j);
    ReceivedMeaning(c, ws[j], es[j].flow, es[j].packet);
  }

  lemma MarksDiffer()
    ensures EXCLUDED != UNMARKED
  {
    assert EXCLUDED[0] != UNMARKED[0];
  }

  lemma ExclusionStep(c: Setup, w: World, e: Event, flow: Flow)
    requires ValidSetup(c) && Inv(w) && ValidEvent(e)
    requires CtMark(Step(c, w, e), flow) == EXCLUDED && CtMark(w, flow) != EXCLUDED
    ensures e.Outbound? && e.flow == flow && LeavesMarked(c, w, e.packet)
  {
    MarksDiffer();
    match e
    case Control(_) =>
    case Outbound(f, p) => SentMeaning(c, w, f, p);
    case Inbound(f, p) => ReceivedMeaning(c, w, f, p);
    case Expire(_) =>
  }

  /** A flow is excluded only because one of its own packets left with the firewall mark. */
  lemma {:induction false} ExclusionHasACause(c: Setup, ws: seq<World>, es: seq<Event>, n: nat, flow: Flow)
    returns (i: nat)
    requires ValidSetup(c) && IsRun(c, ws, es) && n < |ws|
    requires CtMark(ws[n], flow) == EXCLUDED
    ensures i < n && es[i].Outbound? && es[i].flow == flow && LeavesMarked(c, ws[i], es[i].packet)
    decreases n
  {
    MarksDiffer();
    if CtMark(ws[n - 1], flow) == EXCLUDED {
      i := ExclusionHasACause(c, ws, es, n - 1, flow);
    } else {
      RunInv(c, ws, es, n - 1);
      ExclusionStep(c, ws[n - 1], es[n - 1], flow);
      i := n - 1;
    }
  }
}
