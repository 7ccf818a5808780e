/** Properties of whole stretches of controller events: how retries end. */
module ControllerRuns {
  import opened ControllerTypes
  import opened ControllerSpec
  import opened ControllerInvariant

  // ---- retries ----

  /** Handshake timeouts one after the other, nothing else in between. */
  function Timeouts(s: Snapshot, envs: seq<Env>): Snapshot
    decreases |envs|
  {
    if envs == [] then s else Timeouts(TimedOut(s, envs[0]), envs[1..])
  }

  /** Each timeout of the stretch finds the timer running, and no local profile is in use. */
  predicate UnbrokenTimeouts(s: Snapshot, envs: seq<Env>)
    decreases |envs|
  {
    envs == [] || (s.timer && !envs[0].hasProfiles && UnbrokenTimeouts(TimedOut(s, envs[0]), envs[1..]))
  }

  function RetrySetup(s: Snapshot, env: Env): Setup
  {
    SetupConfigs(env, s.serverData.multihop, s.initiator, s.retry == 0)
  }

  /** A timeout gives the location up: nothing is pending, and retries or servers have run out. */
  predicate GivesUp(s: Snapshot, env: Env)
  {
    && !s.nextStep.EndsSession()
    && (|| s.retry + 1 >= MAX_RETRY
        || RetrySetup(s, env).NoServer?
        || (RetrySetup(s, env).NoDevice? && s.state.ConnectionError?))
  }

  /** A timeout either starts another attempt, one retry later, or stops for good: in ConnectionError
      exactly when it gives the location up. */
  lemma TimeoutStep(s: Snapshot, env: Env)
    requires Inv(s) && s.timer && !env.hasProfiles
    ensures var r := TimedOut(s, env);
            && Inv(r)
            && (r.timer <==> !s.nextStep.EndsSession() && s.retry + 1 < MAX_RETRY && RetrySetup(s, env).Hops?)
            && (r.timer ==> r.retry == s.retry + 1 && r.nextStep == s.nextStep
                            && r.queue == RetrySetup(s, env).hops)
            && (!r.timer ==> (r.state.ConnectionError? <==> GivesUp(s, env)))
  {
    TimedOutGood(s, HandshakeTimeout(env));
    if s.nextStep.EndsSession() {
    } else if s.retry + 1 < MAX_RETRY {
    } else {
    }
  }

  /** An unbroken stretch of timeouts has at most nine of them, the ninth ends in ConnectionError, and a stretch
      that stops ends in ConnectionError exactly when its last timeout gave the location up. */
  lemma {:induction false} TimeoutsEnd(s: Snapshot, envs: seq<Env>)
    requires Inv(s) && envs != [] && UnbrokenTimeouts(s, envs)
    ensures |envs| == 1 || s.retry + |envs| <= MAX_RETRY
    ensures s.retry + |envs| >= MAX_RETRY && !s.nextStep.EndsSession() ==>
              !Timeouts(s, envs).timer && Timeouts(s, envs).state.ConnectionError?
    ensures |envs| == MAX_RETRY ==> !Timeouts(s, envs).timer && Timeouts(s, envs).state.ConnectionError?
    ensures !Timeouts(s, envs).timer ==>
              (Timeouts(s, envs).state.ConnectionError?
               <==> GivesUp(Timeouts(s, envs[..|envs| - 1]), envs[|envs| - 1]))
    decreases |envs|
  {
    TimeoutStep(s, envs[0]);
    var r, rest := TimedOut(s, envs[0]), envs[1..];
    if rest == [] {
      assert Timeouts(r, rest) == r;
    } else {
      assert rest[0] == envs[1];
      TimeoutsEnd(r, rest);
      assert envs[..|envs| - 1][1..] == rest[..|rest| - 1];
      assert envs[..|envs| - 1][0] == envs[0];
      assert Timeouts(s, envs[..|envs| - 1]) == Timeouts(r, rest[..|rest| - 1]);
    }
  }

  /** While servers and a device are available, every one of the first eight timeouts of an activation
      starts another attempt. */
  lemma {:induction false} EightRetries(s: Snapshot, envs: seq<Env>)
    requires Inv(s) && s.timer && !s.nextStep.EndsSession() && s.retry + |envs| < MAX_RETRY
    requires forall env <- envs :: !env.hasProfiles && env.device && env.exit.Some? && env.entry.Some?
    ensures UnbrokenTimeouts(s, envs) && Timeouts(s, envs).timer && Inv(Timeouts(s, envs))
    ensures Timeouts(s, envs).retry == s.retry + |envs|
    decreases |envs|
  {
    if envs != [] {
      TimeoutStep(s, envs[0]);
      EightRetries(TimedOut(s, envs[0]), envs[1..]);
    }
  }

  /** The retry policy forces the DNS port on the first retry and on no other. */
  lemma DnsPortOnFirstRetryOnly(s: Snapshot, env: Env)
    requires Inv(s) && s.timer && !env.hasProfiles && TimedOut(s, env).timer && !env.alwaysPort53
    requires !env.multihopFeature || !s.serverData.multihop || env.multihopBackend
    ensures var first := TimedOut(s, env).queue[0];
            var picked := if first.hop.MultiHopEntry? then env.entry.value else env.exit.value;
            && first.key == picked.server.publicKey
            && first.port == if TimedOut(s, env).retry == 1 then DNS_PORT else picked.port
  {
    TimeoutStep(s, env);
  }

  /** Without a device, a timeout leaves the controller waiting with no timer and nothing queued:
      it neither retries nor reports an error. */
  lemma MissingDeviceStalls(s: Snapshot, env: Env)
    requires Inv(s) && s.timer && s.state.Confirming? && s.nextStep.NoStep? && s.retry == 0
    requires !env.hasProfiles && env.exit.Some? && !env.device
    ensures var r := TimedOut(s, env);
            r.state.Confirming? && !r.timer && r.queue == [] && r.nextStep.Disconnect?
  {
  }
}
