# Verified models of the VPN client's protocol cores

This project models the parts of the Mozilla VPN client whose correctness cannot be read off one function: the
controller protocol, the Linux firewall rule programs, the latency scheduler with its cooldown index, the item-path
language used for UI automation, the daemon byte stream, the encrypted settings file, and the ping statistics. Each
part is a set of functions on values with theorems over all inputs or all runs, and, where the source works by
changing fields, lists or arrays, an object whose methods do the same steps and are proved equal to those functions.

`dafny verify dfyconfig.toml` checks everything.

## How the parts are built

- **Controller** (`ControllerTypes`, `ControllerSpec`, `ControllerInvariant`, `ControllerRuns`, `ControllerSessions`,
  `ControllerLifecycle`, `Controller`). Eighteen events, user requests and backend signals in any order. What the controller reads from its
  surroundings while handling an event (server picks, device, clock, features) is a record that each event carries, so
  every theorem holds for every choice. The handshake timer is an armed flag; a timeout can only happen while it is
  armed, and firing disarms it. An event is handled to its end before the next one: a signal that answers a backend
  call is a later event, also where a handler still sets the state after the call.
- **Firewall** (`Nft`, `NftCidr`, `NftRules`, `NftFirewall`, `NftVerdicts`, `NftFlows`, `NftRuns`, `NftContext`). An
  interpreter for the rule expressions in use (all of them use register 1), chains, and hooks that run their chains in
  priority order. 32-bit and 16-bit quantities are kept as their bytes in the order the kernel loads them. Headers are
  laid out as in section 3.1 of RFC 791 and section 3 of RFC 8200.
- **Latency** (`LatencySpec`, `LatencyProofs`, `LatencyRuns`, `LatencyExact`, `LatencyScheduler`) and **cooldowns**
  (`CooldownSpec`, `CooldownProofs`, `CooldownScores`, `CooldownIndex`). The scheduler's 16-bit sequence numbers are related to the unbounded count of
  pings sent. Clocks do not run back, and a timer that is due fires before the next call.
- **Item paths** (`QmlPathSyntax`, `QmlPathRoundTrip`, `QmlPathSpelling`, `QmlPathParser`, `QmlPathEval`,
  `QmlPathOrder`), **daemon stream**
  (`DaemonStream`), **settings file** (`CryptoSettings`, `CryptoRuns`, `CryptoWitness`), **ping statistics**
  (`PingStatistics`, `Baseline`). Keys of the settings file come from a store that keeps the key itself (Windows, macOS)
  or derives it from a 32-byte seed named in the file (Linux); random draws are 32-byte parameters that never repeat.
  That a process holding one key cannot open a file sealed with another is a hypothesis on the run (`Authentic`).

## What turned out not to hold, and when it does

- A stretch of handshake timeouts does not always end in ConnectionError: without a device the controller is left
  waiting with no timer (`MissingDeviceStalls`). `TimeoutsEnd` gives the exact condition.
- A session does not always keep its start time across switches: a handshake of the old tunnel reported before the
  tunnel goes down makes the reconnect count as a new session (`LateHandshakeLosesSession`). `Follow` reads off the
  events whether a session goes on, and `SessionSurvivesExactly` proves that for the events of a session this is exact:
  it is never left and never timed anew if and only if every event is admitted. `SessionStep` gives the exact guard of
  a single event. A session that is on while a reconnect is due, or that lacked a device, is not lost at once but comes
  to rest only by another switch (`OffCourseStays`).
- Retry delays do not always start at half a second: losing the daemon arms the timer with the delay left over from
  finding it (`StaleDelayAfterLoss`), so the first delay is the initial one exactly when the daemon had answered the
  first attempt (`FirstDelayAfterLoss`).
- A nonce can be used twice under one key: with a stored key if a process saves before it loads
  (`SavingUnloadedReuses`), and with either store if a process loads the file after a save under its key was lost
  (`LostWriteReuses`). A lost save that the same process makes good does no harm (`LostWriteMadeGood`).
  `NoncesReusedExactly` gives the exact condition, read off the events: no process saves while it is behind.
- A ping reply numbered 0 that comes before the first ping counts as an answer with the current time as its latency
  (`StrayReply`).
- Lifting a cooldown with a negative timeout disarms the timer while other cooldowns remain; `SetCooldownCovers` gives
  the exact condition.
- The metadata length of a version 2 settings file is decoded with the high byte shifted the wrong way, so it is
  recovered exactly below 128 bytes where `char` is signed and below 256 where it is not
  (`LengthDecodesBelowLimit`, `LongMetadataUnreadable`).
- An IPv4-mapped IPv6 prefix matches one address instead of a block (`MappedPrefixMeaning`).
- The DNS block is appended after the allow rules and never stops a packet that passed without it
  (`BlockDnsAcceptsTheSame`).
- The stream buffer outlives a broken connection; what it holds is harmless exactly when it is blank
  (`LeftoverHarmless`).
- A steady latency sample above the smoothed baseline is never reached: it is if and only if the baseline starts at it
  or above (`ReachedExactly`), and from seven below it does not move at all (`StaysShort`).

## Model

| member | source | states |
|---|---|---|
| `ControllerTypes.RangesSeparate` | src/controller_p.cpp:17-51 | full-protection ranges hold both catch-all prefixes; extension ranges hold nothing wider than /20, so the two never coincide |
| `ControllerTypes.ExtensionRangesExact` | src/controller_p.cpp:17-51 | the extension's ranges are the gateways, the proxy services and the resolver exactly if it is internal, or custom and not on the local network; full ranges are spelled out as well |
| `ControllerSpec.SetupConfigs` | src/controller.cpp:402-541 | hops are only ever built with a device present, and then one or two of them |
| `ControllerInvariant.RestartGood` | src/controller.cpp:543-585 | restarting an activation yields a queue of shape [exit] or [entry, exit] built for the given initiator, or none, and never turns the tunnel on |
| `ControllerInvariant.StepGood` | src/controller.cpp:212-1205 | every event keeps the invariant; it empties the queue, keeps it, takes its answered head off or builds a new one; and only the last handshake or a backend that reports itself connected turns the tunnel on |
| `ControllerInvariant.RunInv` | src/controller.cpp:212-1205 | the invariant holds in every snapshot of every run |
| `ControllerInvariant.TimeoutAssertionsHold` | src/controller.cpp:283-332 | whenever the timer runs the queue is non-empty and its last hop is no entry hop, and the retry counter never exceeds the maximum plus one |
| `ControllerInvariant.QueueOrigin` | src/controller.cpp:543-585 | a non-empty queue goes back to one event that built it, unchanged since except for an entry hop that answered, under the same initiator |
| `ControllerInvariant.LastHopAnswers` | src/controller.cpp:722-742 | a queue is used up, or the tunnel turned on while hops are queued, only by the answer of its last hop |
| `ControllerInvariant.UpOnlyAfterAllHops` | src/controller.cpp:722-774 | a queued activation is complete, from whatever state, only after each of its hops answered, in queue order, with nothing rebuilt in between |
| `ControllerInvariant.ExitBuiltForInitiator` | src/controller.cpp:426-440 | while hops built from servers are queued, the exit hop carries the ranges of the current initiator |
| `ControllerInvariant.ProtectionMatchesRanges` | src/controller.cpp:769-773 | whenever the last hop of a server activation answers, also with the tunnel already up, it is then partial exactly when the exit ranges are the extension's and full exactly when they hold both catch-alls |
| `ControllerRuns.TimeoutStep` | src/controller.cpp:283-332 | a timeout without local profiles either starts attempt number retry + 1 or stops, in ConnectionError exactly when it gives the location up |
| `ControllerRuns.TimeoutsEnd` | src/controller.cpp:311-331 | an unbroken stretch of timeouts has at most nine, the ninth ends in ConnectionError, and any stretch that stops is in ConnectionError exactly when its last timeout gave up |
| `ControllerRuns.EightRetries` | src/controller.cpp:318-327 | with servers and a device available, each of the first eight timeouts of an activation starts another attempt |
| `ControllerRuns.DnsPortOnFirstRetryOnly` | src/controller.cpp:318-327 | the first hop uses port 53 on the first retry and the server's own port on every other |
| `ControllerRuns.MissingDeviceStalls` | src/controller.cpp:416-422 | a timeout without a device leaves Confirming with no timer, nothing queued and no error |
| `ControllerSessions.SessionStep` | src/controller.cpp:776-784 | a switch, retry, handshake or tunnel-down event keeps the session and its start time if and only if its guard holds |
| `ControllerSessions.StepTracks` | src/controller.cpp:679-1013 | after every admitted event the controller is where the events of the session say: location, hops yet to answer, retries and what is due once the tunnel is down, with the original start time |
| `ControllerSessions.SessionEventTracks` | src/controller.cpp:679-1013 | a switch, retry, handshake or disconnection is admitted if and only if the session goes on with its start time |
| `ControllerSessions.SessionSurvives` | src/controller.cpp:983-1013 | from On, any number of user and silent switches, retries and reconnects keeps the start time whenever the events alone allow it, and the tunnel is On exactly when they leave no switch open |
| `ControllerSessions.SessionSurvivesExactly` | src/controller.cpp:983-1013 | for any run of switches, retries, handshakes and disconnections from On, all events are admitted if and only if the session is never left and never timed anew |
| `ControllerSessions.SessionReturns` | src/controller.cpp:742-784 | a session on course is never stuck: the pending disconnection and the answers awaited bring it back to On with the original start time |
| `ControllerSessions.OffCourseStays` | src/controller.cpp:792-833 | a session off course is not brought back by a disconnection, handshake or retry |
| `ControllerSessions.ReconnectFromOnLosesSession` | src/controller.cpp:814-819 | a reconnect that starts from On ends up timed as a new session |
| `ControllerSessions.LateHandshakeLosesSession` | src/controller.cpp:1000-1006 | the old tunnel's handshake arriving between a multi-hop change and its disconnection loses the start time |
| `ControllerLifecycle.ActivationMeaning` | src/controller.cpp:1024-1093 | from every state the request is ignored, refused, begun with the hops of the location in order on attempt zero, or failed for want of a server or a device, each exactly when |
| `ControllerLifecycle.ActivationConnects` | src/controller.cpp:1024-1093 | from Off, the timer is armed if and only if nothing refuses the activation; then the answers of the hops end in OnPartial for the extension and On otherwise, timed from the last one |
| `ControllerLifecycle.ProfileActivationConnects` | src/controller.cpp:1095-1157 | the same for a local profile, which also needs a backend |
| `ControllerLifecycle.ProfileActivationMeaning` | src/controller.cpp:1095-1157 | in the other states it is ignored, failed without a backend, or begun with the profile as the only hop |
| `ControllerLifecycle.AnswersBringUp` | src/controller.cpp:722-790 | whatever hops are queued, their answers in order bring the tunnel up for the initiator, timed anew unless it was a switch |
| `ControllerLifecycle.SwitchMeaning` | src/controller.cpp:983-1013 | from every state a switch is ignored, takes the tunnel down to reconnect at the new location, or dials it at once |
| `ControllerLifecycle.SilentSwitchMeaning` | src/controller.cpp:679-713 | only a tunnel that is fully on is switched silently, and its own location dialled again |
| `ControllerLifecycle.ReconnectMeaning` | src/controller.cpp:814-819 | once the tunnel is down a pending reconnect dials the location it was meant for |
| `ControllerLifecycle.DeactivationEnds` | src/controller.cpp:1159-1205 | refused to a lower rank; otherwise everything under way is dropped, and once the tunnel is down nothing of the session is left |
| `ControllerLifecycle.NeverConnectedCloses` | src/controller.cpp:1169-1174 | an activation that found no server can be deactivated at once |
| `ControllerLifecycle.QuitEnds` | src/controller.cpp:250-263 | quitting closes whatever is active, and the disconnection ends in Off |
| `ControllerLifecycle.UpdateEnds` | src/controller.cpp:386-400 | an update closes a tunnel that is on and otherwise waits |
| `ControllerLifecycle.PendingEndWins` | src/controller.cpp:300-309 | with an end pending neither the last answer nor a timeout goes on with the session |
| `ControllerLifecycle.InitializationMeaning` | src/controller.cpp:218-248 | a backend found connected is taken over with its own date, or now |
| `ControllerLifecycle.PortalBlocksOnce` | src/controller.cpp:1041-1048 | a captive portal blocks one activation, unless it has gone |
| `ControllerLifecycle.HopsAreBuilt` | src/controller.cpp:402-541 | keys, ports and ranges of each hop, and which of them the DNS port is forced on |
| `ControllerObject.Controller.LocationIsUnavailable` | src/controller.cpp:369-384 | error by previous state, then ConnectionError |
| `ControllerObject.Controller.PrepareConfigs` | src/controller.cpp:402-541 | the hops of the specification, or an empty list with the matching failure recorded |
| `ControllerObject.Controller.ActivateInternal` | src/controller.cpp:543-585 | the object restarts the activation as specified |
| `ControllerObject.Controller.StartQueue` | src/controller.cpp:562-585 | the hops are queued, their keys remembered and the first one started |
| `ControllerObject.Controller.ActivateNext` | src/controller.cpp:615-655 | the head hop is started as specified, empty queue and missing device included |
| `ControllerObject.Controller.ActivateServers` | src/controller.cpp:1024-1093 | server activation as specified, captive portal and connectivity check included |
| `ControllerObject.Controller.ActivateProfile` | src/controller.cpp:1095-1157 | local profile activation as specified |
| `ControllerObject.Controller.Deactivate` | src/controller.cpp:1159-1205 | deactivation as specified, permission check and never-connected case included |
| `ControllerObject.Controller.HandshakeTimedOut` | src/controller.cpp:283-332 | the timeout handler as specified, with both source assertions proved in place |
| `ControllerObject.Controller.AllHopsUp` | src/controller.cpp:742-790 | the tunnel is established as specified |
| `ControllerObject.Controller.HandshakeCompleted` | src/controller.cpp:722-790 | handshakes are matched against the queue head as specified |
| `ControllerObject.Controller.TunnelWentDown` | src/controller.cpp:792-833 | the pending step is taken as specified |
| `ControllerObject.Controller.SwitchServers` | src/controller.cpp:983-1013 | server switch as specified |
| `ControllerObject.Controller.SilentSwitchServers` | src/controller.cpp:679-713 | silent switch as specified |
| `ControllerObject.Controller.RequestQuit` | src/controller.cpp:250-263 | quit as specified |
| `ControllerObject.Controller.RequireUpdate` | src/controller.cpp:386-400 | update as specified |
| `ControllerObject.Controller.BackendIsInitialized` | src/controller.cpp:218-248 | backend initialisation as specified |
| `ControllerObject.Controller.Handle` | src/controller.cpp:212-1205 | the object handles any event as specified and keeps its invariant |
| `NftCidr.MaskedAddress` | linux/netfilter/netfilter.go:900-906 | masking two addresses gives equal bytes exactly when they agree on the prefix bits |
| `NftRules.IfnameExact` | linux/netfilter/netfilter.go:86-90 | padded interface names are equal exactly when the names are |
| `NftRules.MetaRuleMeaning` | linux/netfilter/netfilter.go:257-295 | a load-and-compare rule accepts exactly the packets with that metadata and leaves others undecided |
| `NftRules.ServerRuleMeaning` | linux/netfilter/netfilter.go:297-375 | the server rule accepts exactly UDP packets of its family whose address is in the server set |
| `NftRules.RestrictRulesMeaning` | linux/netfilter/netfilter.go:254-536 | the five rules of a direction accept exactly loopback, tunnel, UDP with a server, and marked packets |
| `NftRules.PrefixRuleMeaning` | linux/netfilter/netfilter.go:857-917 | for IPv4 and non-mapped IPv6 prefixes the program accepts exactly the packets whose address is in the block |
| `NftRules.MappedPrefixMeaning` | linux/netfilter/netfilter.go:864-911 | for an IPv4-mapped prefix it accepts exactly the packets with the one IPv4 address and room for a 16-byte load |
| `NftFirewall.ChainAfter` | linux/netfilter/netfilter.go:919-942 | after any operations each filter chain is the installed rules followed by the added ones in order |
| `NftFirewall.PrerouteAfter` | linux/netfilter/netfilter.go:980-1040 | after any operations prerouting is the installed rules followed by the isolation rules; tracking and mark are unchanged |
| `NftFirewall.ServersAfter` | linux/netfilter/netfilter.go:944-978 | an address is in its server set exactly when the last operation on it marked it |
| `NftFirewall.CutCollides` | linux/netfilter/netfilter.go:538-542 | control groups are told apart by the first 511 bytes of their paths |
| `NftVerdicts.FilterMeaning` | linux/netfilter/netfilter.go:776-792 | after any operations a filter chain passes permitted packets, then follows allow and block rules in order, and drops the rest |
| `NftVerdicts.RestrictionExact` | linux/netfilter/netfilter.go:254-536 | over any marks and clears, input and output accept exactly loopback, tunnel, UDP with a currently marked server, or the firewall mark, and drop everything else |
| `NftVerdicts.BlockDnsAcceptsTheSame` | linux/netfilter/netfilter.go:1730-1796 | appending the DNS block changes no packet from accepted to refused |
| `NftFlows.CgroupRulesAfter` | linux/netfilter/netfilter.go:561-601 | the marking chain holds exactly the rules of the marked control groups |
| `NftFlows.MarkedPathsAfter` | linux/netfilter/netfilter.go:1055-1097 | a control group is marked exactly when the last operation on it marked it |
| `NftFlows.CgroupChainMeaning` | linux/netfilter/netfilter.go:564-601 | the marking chain marks exactly unmarked non-loopback packets of a marked group |
| `NftFlows.HookOrder` | linux/netfilter/netfilter.go:747-792 | by priority, leaving packets meet marking, tracking and filter in that order |
| `NftFlows.OutputHookMeaning` | linux/netfilter/netfilter.go:97-125 | a leaving packet is marked if excluded, its flow tracked if marked, and then filtered |
| `NftFlows.PrerouteHookMeaning` | linux/netfilter/netfilter.go:127-251 | an arriving packet is marked exactly when it is from a server or on an excluded flow, and dropped exactly when isolated |
| `NftRuns.ExcludedPasses` | linux/netfilter/netfilter.go:561-601 | in any run every packet of an excluded control group passes output, marked, and its flow is remembered |
| `NftRuns.RepliesPass` | linux/netfilter/netfilter.go:225-251 | in any run every later arriving packet of that flow is re-marked and accepted, exactly unless isolated, as long as the flow has not expired |
| `NftRuns.ExclusionHasACause` | linux/netfilter/netfilter.go:97-125 | a flow is excluded only if one of its own leaving packets carried the firewall mark |
| `NftContext.Context.ApplyFwMark` | linux/netfilter/netfilter.go:830-842 | a zero mark is refused; otherwise the tracking and prerouting rules are added |
| `NftContext.Context.RestrictTraffic` | linux/netfilter/netfilter.go:844-850 | the restriction rules are added to both filter chains with the current mark |
| `NftContext.Context.MarkInbound` | linux/netfilter/netfilter.go:944-960 | a parsed address goes into the set of its family, an unparsable one changes nothing |
| `NftContext.Context.ClearInbound` | linux/netfilter/netfilter.go:962-978 | a parsed address leaves the set of its family |
| `NftContext.Context.AllowPrefix` | linux/netfilter/netfilter.go:919-942 | a parsed prefix adds one rule to each filter chain |
| `NftContext.Context.MarkCgroup` | linux/netfilter/netfilter.go:1055-1066 | refused without a mark; otherwise adds the rule of the cut path |
| `NftContext.Context.ResetCgroup` | linux/netfilter/netfilter.go:625-642 | removes exactly the rules of that control group |
| `NftContext.Context.ResetAllCgroups` | linux/netfilter/netfilter.go:1091-1097 | empties the marking chain |
| `NftContext.Context.IsolateIpv6` | linux/netfilter/netfilter.go:980-1040 | adds one isolation rule to prerouting |
| `NftContext.Context.BlockDns` | linux/netfilter/netfilter.go:1730-1796 | adds the UDP and TCP rejections to the output chain |
| `NftContext.BringUp` | linux/netfilter/netfilter.go:741-850 | tables, mark and restriction leave exactly the installed rule set |
| `LatencyRuns.QueueIsSortedServers` | src/serverlatency.cpp:139-163 | the send queue is sorted by distance and holds each server as often as it is listed |
| `LatencyRuns.AddCityExactly` | src/serverlatency.cpp:143-161 | a city's servers go in together, last one first, in front of the first entry at least as far away |
| `LatencyProofs.ScanKeeps` | src/serverlatency.cpp:181-207 | scanning the head keeps order and budget and leaves no timed-out record anywhere in the list |
| `LatencyProofs.FillKeeps` | src/serverlatency.cpp:209-226 | filling keeps the bound of eight and stops only with a full window or an empty queue |
| `LatencyProofs.MaybeSendKeeps` | src/serverlatency.cpp:174-246 | a call keeps the invariant, adds no work, and does some if the head had timed out |
| `LatencyProofs.ReplyKeeps` | src/serverlatency.cpp:313-331 | a matched reply does work, an unmatched one changes nothing |
| `LatencyRuns.RunInv` | src/serverlatency.cpp:174-246 | in every run at most eight pings are in flight, ordered by send time, and what remains never grows |
| `LatencyRuns.AtMostThreePings` | src/serverlatency.cpp:190-203 | in every run each server is pinged at most three times per listing |
| `LatencyRuns.RepliesMatch` | src/serverlatency.cpp:313-320 | with three times the servers within 16 bits, a reply finds exactly the ping it answers |
| `LatencyRuns.ProgressGrows` | src/serverlatency.cpp:396-403 | progress lies between 0 and 1 and never falls |
| `LatencyRuns.RefreshEnds` | src/serverlatency.cpp:233-245 | a refresh has at most four effective events per server and is over exactly when no work is left |
| `LatencyRuns.NothingOverdue` | src/serverlatency.cpp:181-207 | after a timer event or a matched reply nothing in flight has timed out, and at most eight are in flight |
| `LatencyExact.CallExactly` | src/serverlatency.cpp:174-246 | a call keeps the live records in order, sends the timed-out ones with retries left again behind them in order, and then as many from the front of the queue as fit |
| `LatencyExact.ReplyExactly` | src/serverlatency.cpp:313-331 | told by ping numbers: the answered record is gone, others that have not timed out stay as they were, and those that have are gone and there once more, one retry later, if they had retries left |
| `LatencyExact.RepliesTakeTheirPing` | src/serverlatency.cpp:313-331 | the same in every run of at most 21845 servers |
| `LatencyExact.SentInOrder` | src/serverlatency.cpp:139-226 | in every run the queue is what is left of the servers sorted by distance, and they are first pinged in exactly that order |
| `LatencyExact.FirstCallPingsNearest` | src/serverlatency.cpp:209-226 | the first call pings the first eight of them |
| `LatencyRuns.ProgressIsShare` | src/serverlatency.cpp:396-403 | progress is the share of servers neither queued nor in flight, and one exactly when none is |
| `LatencyScheduler.Scheduler.TimeoutHead` | src/serverlatency.cpp:190-206 | the head record is resent at the end of the list or given up, as specified |
| `LatencyScheduler.Scheduler.ExpirePings` | src/serverlatency.cpp:181-207 | the loop over the list head is the specified scan, with wrapping sequence numbers |
| `LatencyScheduler.Scheduler.FillWindow` | src/serverlatency.cpp:209-226 | the loop over the queue is the specified fill |
| `LatencyScheduler.Scheduler.MaybeSendPings` | src/serverlatency.cpp:174-246 | the call as specified: it stops the refresh or arms the timer for the head's timeout |
| `LatencyScheduler.Scheduler.FindRecord` | src/serverlatency.cpp:313-320 | the loop finds the first record of that sequence number |
| `LatencyScheduler.Scheduler.RecvPing` | src/serverlatency.cpp:313-331 | the first record of that sequence number is taken off and its latency reported |
| `LatencyScheduler.Scheduler.Start` | src/serverlatency.cpp:99-172 | a refresh starts with the specified queue and first pings |
| `LatencyScheduler.Scheduler.InsertCity` | src/serverlatency.cpp:143-161 | a city's servers go in at the specified place |
| `LatencyScheduler.Scheduler.Stop` | src/serverlatency.cpp:248-264 | lists and timer are cleared |
| `CooldownProofs.ScoreMeaning` | src/serverlatency.cpp:481-512 | a fresh score is unavailable exactly when every server is on cooldown, and from poor to excellent otherwise |
| `CooldownScores.ScoreExactly` | src/serverlatency.cpp:352-394 | every score: one point, one more each for three servers off cooldown, the user's country, a rounded-up mean latency below the overall one, and one below 30 ms as well; at most four; -1 with no server off cooldown |
| `CooldownScores.ScoredAfterLatency` | src/serverlatency.cpp:344-350 | after a latency is set its city has exactly that score and every other city its old one |
| `CooldownScores.ScoredAfterCooldown` | src/serverlatency.cpp:405-413 | so after a cooldown is set or lifted |
| `CooldownScores.ScoredAfterClearing` | src/serverlatency.cpp:459-473 | so for each city that lost an expired cooldown |
| `CooldownScores.OnCooldownUntilExpiry` | src/serverlatency.cpp:405-473 | in every run a server is on cooldown exactly until the last cooldown set for it, or for its city, expires |
| `CooldownScores.TimerIsSooner` | src/serverlatency.cpp:415-419 | with a timeout that is not negative the timer fires when it was going to or that many milliseconds from now, whichever is sooner |
| `CooldownScores.CityTimerIsSooner` | src/serverlatency.cpp:452-456 | so for a city |
| `CooldownProofs.SetCooldownAgrees` | src/serverlatency.cpp:405-413 | setting or lifting a cooldown keeps scores and cooldowns in agreement |
| `CooldownProofs.SetCityCooldownAgrees` | src/serverlatency.cpp:422-450 | so does putting a city on cooldown |
| `CooldownProofs.ClearedIsExact` | src/serverlatency.cpp:459-473 | after expired cooldowns are cleared, a city is unavailable exactly when all its servers are on cooldown |
| `CooldownProofs.ExactAfterTimer` | src/serverlatency.cpp:459-479 | the same after every timer event of every run |
| `CooldownProofs.RunAgrees` | src/serverlatency.cpp:344-394 | scores agree with cooldowns and the latency sum with the latencies, for any interleaving |
| `CooldownProofs.SetCooldownCovers` | src/serverlatency.cpp:415-419 | the timer stays early enough if and only if the timeout is not negative or no other cooldown is left |
| `CooldownProofs.RunTimerCovers` | src/serverlatency.cpp:475-478 | in every run with sane timeouts, while a cooldown is recorded the timer fires no later than the earliest expiry |
| `CooldownProofs.SetLatencySum` | src/serverlatency.cpp:344-350 | the running sum stays the sum of the recorded latencies |
| `CooldownProofs.CeilDivMeaning` | src/serverlatency.cpp:337-342 | the average is the mean rounded up |
| `CooldownIndex.LatencyIndex.BaseCityScore` | src/serverlatency.cpp:481-512 | the counting loop gives the specified base score |
| `CooldownIndex.LatencyIndex.CityAverage` | src/serverlatency.cpp:357-370 | the averaging loop gives the specified city latency |
| `CooldownIndex.LatencyIndex.UpdateConnectionScore` | src/serverlatency.cpp:352-394 | only the server's own city is rescored, as specified |
| `CooldownIndex.LatencyIndex.SetLatency` | src/serverlatency.cpp:344-350 | latency, sum and score change as specified |
| `CooldownIndex.LatencyIndex.SetCooldown` | src/serverlatency.cpp:405-420 | cooldown, score and timer change as specified |
| `CooldownIndex.LatencyIndex.SetCityCooldown` | src/serverlatency.cpp:422-457 | every server of the city is put on cooldown as specified |
| `CooldownIndex.LatencyIndex.ClearCooldowns` | src/serverlatency.cpp:459-479 | in any visiting order: expired cooldowns gone, cities that lost one rescored, timer armed for the earliest left |
| `QmlPathRoundTrip.ReadUndoesWrite` | src/qmlpath.h:10-32 | every canonical block list, written by the documented grammar, reads back as itself |
| `QmlPathRoundTrip.AcceptedIsCanonical` | src/qmlpath.cpp:41-134 | every accepted path reads as a canonical list |
| `QmlPathRoundTrip.WriteNormalises` | src/qmlpath.cpp:13-38 | every accepted path means the same as its canonical form |
| `QmlPathSpelling.PaddedIndexReads` | src/qmlpath.cpp:67-92 | an index may have a plus sign, and blanks around it |
| `QmlPathSpelling.FirstSlashOptional` | src/qmlpath.cpp:41-60 | the first slash may be left out |
| `QmlPathParser.ParseFilter` | src/qmlpath.cpp:67-130 | one filter is read as specified, every failure included |
| `QmlPathParser.ParsePath` | src/qmlpath.cpp:41-134 | one block is read as specified and the position moves on |
| `QmlPathParser.ParseAll` | src/qmlpath.cpp:13-38 | the blocks of the path, or none for an invalid one |
| `QmlPathEval.FindMeaning` | src/qmlpath.cpp:226-237 | a search finds exactly the items of that name at any depth below |
| `QmlPathEval.CandidatesMeaning` | src/qmlpath.cpp:174-190 | before filtering, a block offers exactly the items the documentation promises |
| `QmlPathEval.KeepMeaning` | src/qmlpath.cpp:250-287 | a property filter keeps exactly the items with the property and value |
| `QmlPathOrder.PropertyMeaning` | src/qmlpath.cpp:250-287 | when an item has a property: class names are compared, any other has to be there, with its value if one is given |
| `QmlPathOrder.SelectionByPosition` | src/qmlpath.cpp:174-202 | a block selects the items at its positions in order: the one with j others before it comes j-th |
| `QmlPathOrder.IndexPicks` | src/qmlpath.cpp:240-248 | a block that ends in an index finds the item of its name and filters with exactly that many such items before it, and nothing if there are not that many |
| `QmlPathOrder.FindInOrder` | src/qmlpath.cpp:226-237 | a search lists exactly the items of the name below, an item before what is below it and that before the next item |
| `QmlPathOrder.NestedInOrder` | src/qmlpath.cpp:174-190 | a nested block offers the items below its starting items in that order |
| `QmlPathOrder.NestedSelection` | src/qmlpath.cpp:174-202 | behind the starting items of the name, and its filters pick by position among all of them |
| `QmlPathOrder.ChildrenInOrder` | src/qmlpath.cpp:212-223 | children come in order, and those of the content item after them |
| `QmlPathEval.EvaluationIsExact` | src/qmlpath.cpp:163-210 | the search returns the end of the first chain in search order and null exactly when there is no chain |
| `QmlPathEval.SelectItems` | src/qmlpath.cpp:174-202 | the selection loops give the specified items in order |
| `QmlPathEval.FilterByProperty` | src/qmlpath.cpp:250-287 | the removal loop keeps what is specified |
| `QmlPathEval.EvaluateItems` | src/qmlpath.cpp:163-210 | the backtracking evaluator gives the specified result |
| `DaemonStream.LinesUnique` | src/localsocketcontroller.cpp:188-195 | any cutting of a stream into newline-free lines and tail is the one the reader finds |
| `DaemonStream.ChunkingIrrelevant` | src/localsocketcontroller.cpp:180-206 | however the stream is chunked, the commands are its non-blank trimmed lines and the buffer its newline-free tail |
| `DaemonStream.FramingRoundTrip` | src/localsocketcontroller.cpp:321-345 | written messages are read back as they were, in any chunks |
| `DaemonStream.TrimMeaning` | src/localsocketcontroller.cpp:197-198 | trimming takes white space off both ends, and all of it |
| `DaemonStream.LeftoverHarmless` | src/localsocketcontroller.cpp:57-69 | what a broken connection leaves in the buffer is harmless to every later stream exactly when it is blank |
| `DaemonStream.BackoffDoublesToMaximum` | src/localsocketcontroller.cpp:18-26 | in every run each loss arms the timer with 500 ms doubled for every attempt in a row after the first, up to 16 s; the daemon state follows from the events |
| `DaemonStream.FirstDelayAfterLoss` | src/localsocketcontroller.cpp:57-69 | after losing a daemon that had answered, the first delay is 500 ms if and only if it had answered the first attempt |
| `DaemonStream.StaleDelayAfterLoss` | src/localsocketcontroller.cpp:90-99 | a daemon found after five failed attempts and then lost is next tried after 16 s |
| `DaemonStream.TimerRunsExactly` | src/localsocketcontroller.cpp:57-104 | in every run the retry timer runs exactly if the daemon was lost and the timer has since neither fired nor been stopped by a ready daemon |
| `DaemonStream.AnnouncedExactly` | src/localsocketcontroller.cpp:237-264 | a status is announced exactly if it is the first, says whether the tunnel is up, and gives a valid date if it is |
| `DaemonStream.Connection.ReadData` | src/localsocketcontroller.cpp:180-206 | the loop hands over exactly the commands of buffer plus input and keeps the tail |
| `DaemonStream.Connection.InitializeInternal` | src/localsocketcontroller.cpp:90-104 | the interval starts over or doubles up to the maximum, and the timer is left alone |
| `DaemonStream.Connection.ErrorOccurred` | src/localsocketcontroller.cpp:57-69 | the link step of a loss, reported as a disconnection unless still initialising |
| `DaemonStream.Connection.StatusReceived` | src/localsocketcontroller.cpp:237-264 | the link step of a status; the first one is announced exactly when it is well formed |
| `DaemonStream.Connection.DisconnectedReceived` | src/localsocketcontroller.cpp:71-77 | the link step of a closed tunnel: a ready daemon needs no retry |
| `DaemonStream.Connection.HandleLink` | src/localsocketcontroller.cpp:57-104 | any event of the link moves the object as specified |
| `CryptoSettings.LengthDecodesBelowLimit` | src/cryptosettings.cpp:160-160 | the reader recovers a written length if and only if it is below the platform's limit |
| `CryptoSettings.NonceInverts` | src/cryptosettings.cpp:296-298 | the counter is recovered from the nonce bytes |
| `CryptoSettings.NonceLayout` | src/cryptosettings.cpp:296-298 | the nonce is the counter in eight bytes, lowest first, and four zeros |
| `CryptoSettings.SealedLayout` | src/cryptosettings.cpp:313-360 | every byte of a written file has its place, and the ciphertext covers the header |
| `CryptoSettings.OpensExactly` | src/cryptosettings.cpp:143-223 | a version 1 file opens exactly if it is long enough, the key has 32 bytes, and it decrypts to settings |
| `CryptoSettings.OpensExactlyV2` | src/cryptosettings.cpp:143-223 | a version 2 file the same way, behind the metadata its header announces |
| `CryptoSettings.SaveRefused` | src/cryptosettings.cpp:300-326 | saving fails only for want of a 32-byte key or with metadata of 65536 bytes or more |
| `CryptoSettings.EncryptedRoundTrip` | src/cryptosettings.cpp:143-223 | version 1 files, and version 2 files with metadata below the length limit, read back as the same settings and nonce, with either key store |
| `CryptoSettings.NonceFound` | src/cryptosettings.cpp:219-220 | whatever key such a file is opened with, the nonce found is the one it was written with |
| `CryptoSettings.PlaintextRoundTrip` | src/cryptosettings.cpp:249-273 | plaintext files read back as the same settings, with or without a crypto implementation |
| `CryptoSettings.LongMetadataUnreadable` | src/cryptosettings.cpp:160-165 | metadata of 128 to 255 bytes makes a file below 64 kilobytes unreadable where `char` is signed |
| `CryptoSettings.Store.GetKey` | src/platforms/linux/xdgcryptosettings.cpp:89-151 | the key held, the one the metadata names, or a new one that is then held |
| `CryptoSettings.Store.WriteEncrypted` | src/cryptosettings.cpp:275-363 | the file sealed with the next nonce under the key then held, or none on a bad key or length; one step before the counter's top the key is replaced first |
| `CryptoSettings.Store.ReadEncrypted` | src/cryptosettings.cpp:143-223 | the file opens as specified, and only then sets the counter; the key is asked for only if the file is complete |
| `CryptoSettings.Store.ReadBody` | src/cryptosettings.cpp:171-223 | nonce, authentication code and ciphertext are read as specified; every failure leaves the counter alone |
| `CryptoRuns.NoncesNeverReused` | src/cryptosettings.cpp:289-301 | over any history of saved, lost and loaded files no key and nonce bytes are used together twice, key reset included, as long as no process saves while it is behind |
| `CryptoRuns.NoncesReusedExactly` | src/cryptosettings.cpp:289-301 | with either key store, and the counter not coming round, this condition is necessary as well |
| `CryptoRuns.DisciplinedNeverReuses` | src/cryptosettings.cpp:289-301 | so it is enough that saves reach the disk and, with a stored key, that each process loads before it first saves |
| `CryptoRuns.LoadGivesLastSave` | src/cryptosettings.cpp:143-223 | loading gives back the settings last written, by whichever process, unless saves under the file's key were lost or the process holds a key of its own |
| `CryptoRuns.SavingUnloadedReuses` | src/cryptosettings.cpp:289-294 | saving without loading seals a second file with the same stored key and nonce |
| `CryptoRuns.LostWriteReuses` | src/cryptosettings.cpp:341-359 | with either store a save that did not reach the disk is repeated with its key and nonce by the next process |
| `CryptoRuns.LostWriteMadeGood` | src/cryptosettings.cpp:341-359 | a lost save followed by a written one of the same process reuses nothing |
| `PingStatistics.WindowSequencesDistinct` | src/pinghelper.cpp:94-100 | no two pings of the window share a 16-bit sequence number |
| `PingStatistics.SendHolds` | src/pinghelper.cpp:89-104 | sending keeps the ring equal to the last 32 pings |
| `PingStatistics.MatchHolds` | src/pinghelper.cpp:106-111 | a matching reply updates exactly the recent ping it answers |
| `PingStatistics.StrayReply` | src/pinghelper.cpp:106-111 | before the first ping, a reply changes the ring if and only if it is numbered 0 |
| `PingStatistics.RingSum` | src/pinghelper.cpp:121-197 | any sum over the ring is the sum over the last 32 pings |
| `PingStatistics.MeanBetweenExtremes` | src/pinghelper.cpp:137-139 | the rounded mean lies between the extremes, within half of the exact mean |
| `PingStatistics.MeanOfAnswers` | src/pinghelper.cpp:121-140 | the mean is that of the answered pings to the nearest integer, and zero with none |
| `PingStatistics.LossCounts` | src/pinghelper.cpp:177-197 | the loss is the share of the 32 slots whose ping was sent before the given time and has not been answered |
| `PingStatistics.LossIsRatio` | src/pinghelper.cpp:177-197 | the loss lies between 0 and 1 |
| `PingStatistics.PingHelper.Start` | src/pinghelper.cpp:67-73 | the ring and the history start empty |
| `PingStatistics.PingHelper.NextPing` | src/pinghelper.cpp:89-104 | one ping is added to the history |
| `PingStatistics.PingHelper.PingReceived` | src/pinghelper.cpp:106-119 | the history changes only at the recent ping of that number; before the first ping, reply 0 leaves a stray latency |
| `PingStatistics.PingHelper.Latency` | src/pinghelper.cpp:121-140 | the loop gives the rounded mean of the last 32 pings, a stray reply included, in 32 bits |
| `PingStatistics.PingHelper.Maximum` | src/pinghelper.cpp:162-175 | the loop gives their maximum below the 32-bit limit |
| `PingStatistics.PingHelper.Loss` | src/pinghelper.cpp:177-197 | the loop gives their loss ratio, between 0 and 1 |
| `Baseline.AverageBetween` | src/connectionhealth.cpp:216-225 | the average lies between the smallest and largest sample since the reset |
| `Baseline.SettlesFromAbove` | src/connectionhealth.cpp:216-225 | from above, a steady sample is reached exactly, within as many updates as the distance |
| `Baseline.SettlesFromBelow` | src/connectionhealth.cpp:216-225 | from below, the average comes within seven of it and stays there |
| `Baseline.StaysShort` | src/connectionhealth.cpp:216-225 | within seven below a steady sample the average no longer moves |
| `Baseline.ReachedExactly` | src/connectionhealth.cpp:216-225 | a steady sample is ever reached if and only if the average starts at it or above |
| `Baseline.Health.DnsPingReceived` | src/connectionhealth.cpp:207-225 | only a reply to the current ping counts as a sample |
| `Baseline.Health.StartIdle` | src/connectionhealth.cpp:118-128 | the measurement is reset |

## Left out

- Mobile builds: the branches for iOS and Android, the updated-config path of the controller among them.
- Qt signals, sockets and D-Bus as mechanisms; a backend that raises a signal in the middle of its own activate call.
- The canary ping, the confirming timer, the captive-portal screens and the device-connected flag of the controller:
  they show things to the user and decide nothing in the protocol.
- The controller before its backend object exists, and failures to create it.
- How a server is chosen from a location, and server lists that change during a run.
- Masquerading of excluded packets, control groups of version 1, and the DHCP and neighbour-discovery allow rules.
- Netlink failures, and parsing of address text; the firewall methods start from parsed addresses.
- JSON, ChaCha20-Poly1305, key derivation and the keychain's own failures: they are parameters with the laws stated in
  `CryptoSettings.Lawful`, which `CryptoWitness.LawsCanBeMet` shows to be consistent. That different seeds give different
  keys is an idealisation of HKDF. Salt and token of the Linux key store are one seed.
- The rewriting of generated class names before a class-name filter compares them.
- `PingHelper::stddev`, a floating-point square root.
- Baseline.SmoothBetween: does not model 64-bit overflow of the product, which needs a latency above 10^17 ms.
- CooldownProofs.SetCityCooldownCovers: states timer coverage for timeouts of at least one second, the only ones in
  use; a city cooldown that has already expired when set has no expiry left to cover.
