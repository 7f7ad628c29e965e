/** Whole-run properties of one protocol's machine. */
module ProtoRuns {
  import opened ProtoTrack

  function RunTrack(t: Track, ins: seq<Input>): Track {
    if ins == [] then t else TickTrack(RunTrack(t, ins[..|ins| - 1]), ins[|ins| - 1])
  }

  /** What each tick of a run did. */
  function Effects(t: Track, ins: seq<Input>): (es: seq<Effect>)
    ensures |es| == |ins|
  {
    if ins == [] then []
    else
      var front := ins[..|ins| - 1];
      Effects(t, front) + [EffectOf(RunTrack(t, front), ins[|ins| - 1])]
  }

  lemma RunSnoc(t: Track, ins: seq<Input>, input: Input)
    ensures RunTrack(t, ins + [input]) == TickTrack(RunTrack(t, ins), input)
    ensures Effects(t, ins + [input]) == Effects(t, ins) + [EffectOf(RunTrack(t, ins), input)]
  {
    assert (ins + [input])[..|ins|] == ins;
  }

  lemma {:induction false} RunOk(t: Track, ins: seq<Input>)
    requires TrackOk(t)
    ensures TrackOk(RunTrack(t, ins))
    ensures RunTrack(t, ins).configured == t.configured && RunTrack(t, ins).mode == t.mode
  {
    if ins != [] {
      RunOk(t, ins[..|ins| - 1]);
      TickOk(RunTrack(t, ins[..|ins| - 1]), ins[|ins| - 1]);
    }
  }

  // ---------- Loss streaks ----------

  /** The outcomes of the ticks on which the target was pinged. */
  function Outcomes(es: seq<Effect>): seq<bool> {
    if es == [] then []
    else
      var e := es[|es| - 1];
      Outcomes(es[..|es| - 1]) + if e.active then [e.ok] else []
  }

  /** The length of the run of failures a sequence of outcomes ends with. */
  function TrailingLosses(outs: seq<bool>): (n: nat)
    ensures n <= |outs|
    ensures forall i :: |outs| - n <= i < |outs| ==> !outs[i]
    ensures n < |outs| ==> outs[|outs| - n - 1]
  {
    if outs == [] || outs[|outs| - 1] then 0 else 1 + TrailingLosses(outs[..|outs| - 1])
  }

  /** The lengths of the maximal runs of failures, in order. */
  function LossRuns(outs: seq<bool>): seq<nat> {
    if outs == [] then []
    else
      var n := TrailingLosses(outs);
      if n == 0 then LossRuns(outs[..|outs| - 1]) else LossRuns(outs[..|outs| - n]) + [n]
  }

  /** One reopening for every ten losses in a row. */
  function DueReopenings(runs: seq<nat>): nat {
    if runs == [] then 0 else DueReopenings(runs[..|runs| - 1]) + runs[|runs| - 1] / 10
  }

  function Count(es: seq<Effect>, what: Effect -> bool): nat {
    if es == [] then 0 else Count(es[..|es| - 1], what) + if what(es[|es| - 1]) then 1 else 0
  }

  lemma CountSnoc(es: seq<Effect>, e: Effect, what: Effect -> bool)
    ensures Count(es + [e], what) == Count(es, what) + if what(e) then 1 else 0
  {
    assert (es + [e])[..|es|] == es;
  }

  /** A success closes the trailing run. */
  lemma WonSnoc(outs: seq<bool>)
    ensures TrailingLosses(outs + [true]) == 0 && LossRuns(outs + [true]) == LossRuns(outs)
  {
    assert (outs + [true])[..|outs|] == outs;
  }

  /** The outcomes before the trailing run. */
  function Settled(outs: seq<bool>): seq<bool> {
    outs[..|outs| - TrailingLosses(outs)]
  }

  lemma RunsSplit(outs: seq<bool>)
    ensures var n := TrailingLosses(outs);
            LossRuns(outs) == if n == 0 then LossRuns(Settled(outs)) else LossRuns(Settled(outs)) + [n]
  {
    if TrailingLosses(outs) == 0 {
      assert Settled(outs) == outs;
    }
  }

  /** A loss extends it. */
  lemma LostSnoc(outs: seq<bool>)
    ensures TrailingLosses(outs + [false]) == TrailingLosses(outs) + 1
    ensures LossRuns(outs + [false]) == LossRuns(Settled(outs)) + [TrailingLosses(outs) + 1]
  {
    var all := outs + [false];
    assert all[..|all| - 1] == outs;
    assert TrailingLosses(all) == TrailingLosses(outs) + 1;
    hide LossRuns, TrailingLosses;
    assert Settled(all) == Settled(outs);
    RunsSplit(all);
  }

  lemma RunsSnoc(outs: seq<bool>, ok: bool)
    ensures TrailingLosses(outs + [ok]) == if ok then 0 else TrailingLosses(outs) + 1
    ensures LossRuns(outs + [ok]) == if ok then LossRuns(outs) else LossRuns(Settled(outs)) + [TrailingLosses(outs) + 1]
    ensures var n := TrailingLosses(outs);
            LossRuns(outs) == if n == 0 then LossRuns(Settled(outs)) else LossRuns(Settled(outs)) + [n]
  {
    hide LossRuns, TrailingLosses, Settled;
    RunsSplit(outs);
    if ok {
      WonSnoc(outs);
    } else {
      LostSnoc(outs);
    }
  }

  lemma DueAppend(runs: seq<nat>, n: nat)
    ensures DueReopenings(runs + [n]) == DueReopenings(runs) + n / 10
  {
    assert (runs + [n])[..|runs|] == runs;
  }

  lemma NextTenth(n: nat)
    ensures (n + 1) / 10 == n / 10 + if (n + 1) % 10 == 0 then 1 else 0
  {
  }

  lemma LossRunsSnoc(outs: seq<bool>, ok: bool)
    ensures var n := TrailingLosses(outs);
            && TrailingLosses(outs + [ok]) == (if ok then 0 else n + 1)
            && DueReopenings(LossRuns(outs + [ok])) ==
               DueReopenings(LossRuns(outs)) + (if !ok && (n + 1) % 10 == 0 then 1 else 0)
  {
    hide LossRuns, TrailingLosses, DueReopenings;
    var n := TrailingLosses(outs);
    RunsSnoc(outs, ok);
    NextTenth(n);
    DueAppend(LossRuns(Settled(outs)), n + 1);
    DueAppend(LossRuns(Settled(outs)), n);
  }

  /** The streak is the trailing run of losses, and reopenings follow the maximal loss runs, for every run. */
  lemma {:induction false} StreakAndReopenings(configured: bool, mode: Mode, ip: string, sock: int, ins: seq<Input>)
    ensures var t := FreshTrack(configured, mode, ip, sock);
            var outs := Outcomes(Effects(t, ins));
            && RunTrack(t, ins).failStreak == TrailingLosses(outs)
            && Count(Effects(t, ins), (e: Effect) => e.reopened) == DueReopenings(LossRuns(outs))
  {
    var t := FreshTrack(configured, mode, ip, sock);
    if ins != [] {
      var front, input := ins[..|ins| - 1], ins[|ins| - 1];
      StreakAndReopenings(configured, mode, ip, sock, front);
      FreshOk(configured, mode, ip, sock);
      RunOk(t, front);
      StreakStep(RunTrack(t, front), input, Effects(t, front));
    }
  }

  /** What a tick does to the streak, and when it reopens the socket. */
  lemma TickCounts(t: Track, input: Input)
    requires TrackOk(t)
    ensures var e, t' := EffectOf(t, input), TickTrack(t, input);
            && t'.failStreak == (if !e.active then t.failStreak else if e.ok then 0 else t.failStreak + 1)
            && (e.ok ==> e.active)
            && e.reopened == (e.active && !e.ok && (t.failStreak + 1) % 10 == 0)
  {
  }

  lemma StreakStep(t: Track, input: Input, es: seq<Effect>)
    requires TrackOk(t) && t.failStreak == TrailingLosses(Outcomes(es))
    requires Count(es, (e: Effect) => e.reopened) == DueReopenings(LossRuns(Outcomes(es)))
    ensures var es' := es + [EffectOf(t, input)];
            && TickTrack(t, input).failStreak == TrailingLosses(Outcomes(es'))
            && Count(es', (e: Effect) => e.reopened) == DueReopenings(LossRuns(Outcomes(es')))
  {
    hide EffectOf, TickTrack, TrackOk, LossRuns, DueReopenings, TrailingLosses, Count, Outcomes;
    TickCounts(t, input);
    var e := EffectOf(t, input);
    CountSnoc(es, e, (e: Effect) => e.reopened);
    OutcomesSnoc(es, e);
    if e.active {
      LossRunsSnoc(Outcomes(es), e.ok);
    } else {
      assert Outcomes(es) + [] == Outcomes(es);
    }
  }

  // ---------- Blue ----------

  /**
   * After any tick of any run a protocol is blue exactly when it is active, its last ten or more
   * pings were lost, and its gateway answered in this very tick.
   */
  lemma BlueExact(configured: bool, mode: Mode, ip: string, sock: int, ins: seq<Input>)
    requires ins != []
    ensures var t := FreshTrack(configured, mode, ip, sock);
            var es := Effects(t, ins);
            var now := RunTrack(t, ins);
            SeverityOf(now) == Blue <==>
            StateOf(now) == Failing && TrailingLosses(Outcomes(es)) >= 10 && es[|es| - 1].gatewayOk
  {
    var t := FreshTrack(configured, mode, ip, sock);
    var front := ins[..|ins| - 1];
    FreshOk(configured, mode, ip, sock);
    RunOk(t, front);
    RunOk(t, ins);
    StreakAndReopenings(configured, mode, ip, sock, ins);
    hide EffectOf, TickTrack, TrackOk, TrailingLosses, Outcomes, FreshTrack, SeverityOf, StateOf;
    BlueStep(RunTrack(t, front), ins[|ins| - 1]);
  }

  /** One tick turns a protocol blue exactly when it was lost at the threshold and its gateway answered. */
  lemma BlueStep(t: Track, input: Input)
    requires TrackOk(t)
    ensures var t' := TickTrack(t, input);
            SeverityOf(t') == Blue <==>
            StateOf(t') == Failing && t'.failStreak >= 10 && EffectOf(t, input).gatewayOk
  {
  }

  /** On a loss that is a multiple of ten the gateway is asked by the new socket, not by the one given up. */
  lemma TenthLossAsksAnew(target: string, t: Track, input: Input)
    requires TrackOk(t) && t.hasLocalAddress && !(t.sock >= 0 && input.targetReply)
    requires (t.failStreak + 1) % 10 == 0 && t.mode != Disabled
    ensures var calls, address := CallsIn(target, t, input), TickTrack(t, input).gatewayIp;
            && TickTrack(t, input).sock == input.newSock
            && (Answered(calls) <==> address != "" && input.newSock >= 0 && input.gatewayReply)
            && (address != "" && input.newSock >= 0 ==>
                  calls != [] && calls[|calls| - 1] == Pinged(address, input.gatewayReply))
  {
  }

  /** A disabled gateway check is never blue, whatever the network answers. */
  lemma DisabledNeverBlue(configured: bool, ip: string, sock: int, ins: seq<Input>)
    ensures SeverityOf(RunTrack(FreshTrack(configured, Disabled, ip, sock), ins)) != Blue
  {
    FreshOk(configured, Disabled, ip, sock);
    RunOk(FreshTrack(configured, Disabled, ip, sock), ins);
  }

  /** Some loss run reached the gateway check's threshold. */
  predicate ReachedGatewayCheck(runs: seq<nat>) {
    exists n | n in runs :: n >= 10
  }

  /** The route is looked up once at most, and only by an automatic gateway that was needed. */
  lemma {:induction false} RouteLookups(configured: bool, mode: Mode, ip: string, sock: int, ins: seq<Input>)
    ensures var t := FreshTrack(configured, mode, ip, sock);
            var n := Count(Effects(t, ins), (e: Effect) => e.resolved);
            && n == (if mode == Auto && RunTrack(t, ins).gatewayResolved then 1 else 0)
            && (mode == Auto ==>
                  (RunTrack(t, ins).gatewayResolved <==> ReachedGatewayCheck(LossRuns(Outcomes(Effects(t, ins))))))
  {
    var t := FreshTrack(configured, mode, ip, sock);
    if ins != [] {
      var front, input := ins[..|ins| - 1], ins[|ins| - 1];
      RouteLookups(configured, mode, ip, sock, front);
      FreshOk(configured, mode, ip, sock);
      RunOk(t, front);
      StreakAndReopenings(configured, mode, ip, sock, front);
      LookupStep(RunTrack(t, front), input, Effects(t, front));
    }
  }

  lemma OutcomesSnoc(es: seq<Effect>, e: Effect)
    ensures Outcomes(es + [e]) == Outcomes(es) + if e.active then [e.ok] else []
  {
    assert (es + [e])[..|es|] == es;
  }

  /** Whether a tick looks a route up, and what it leaves resolved. */
  lemma TickResolves(t: Track, input: Input)
    requires TrackOk(t)
    ensures var e, t' := EffectOf(t, input), TickTrack(t, input);
            var reached := e.active && !e.ok && t.failStreak + 1 >= 10;
            && e.resolved == (reached && t.mode == Auto && !t.gatewayResolved)
            && (t.mode == Auto ==> t'.gatewayResolved == (t.gatewayResolved || reached))
  {
  }

  lemma LookupStep(t: Track, input: Input, es: seq<Effect>)
    requires TrackOk(t) && t.failStreak == TrailingLosses(Outcomes(es))
    requires Count(es, (e: Effect) => e.resolved) == (if t.mode == Auto && t.gatewayResolved then 1 else 0)
    requires t.mode == Auto ==> (t.gatewayResolved <==> ReachedGatewayCheck(LossRuns(Outcomes(es))))
    ensures var es', t' := es + [EffectOf(t, input)], TickTrack(t, input);
            && Count(es', (e: Effect) => e.resolved) == (if t.mode == Auto && t'.gatewayResolved then 1 else 0)
            && (t.mode == Auto ==> (t'.gatewayResolved <==> ReachedGatewayCheck(LossRuns(Outcomes(es')))))
  {
    hide EffectOf, TickTrack, TrackOk, LossRuns, ReachedGatewayCheck, TrailingLosses, Count, Outcomes;
    TickResolves(t, input);
    var e := EffectOf(t, input);
    CountSnoc(es, e, (e: Effect) => e.resolved);
    OutcomesSnoc(es, e);
    if e.active {
      ReachedSnoc(Outcomes(es), e.ok);
    } else {
      assert Outcomes(es) + [] == Outcomes(es);
    }
  }

  lemma ReachedAppend(runs: seq<nat>, n: nat)
    ensures ReachedGatewayCheck(runs + [n]) <==> ReachedGatewayCheck(runs) || n >= 10
  {
    assert forall m | m in runs :: m in runs + [n];
    assert n in runs + [n];
  }

  lemma ReachedSnoc(outs: seq<bool>, ok: bool)
    ensures ReachedGatewayCheck(LossRuns(outs + [ok])) <==>
            ReachedGatewayCheck(LossRuns(outs)) || (!ok && TrailingLosses(outs) + 1 >= 10)
  {
    hide ReachedGatewayCheck, LossRuns, TrailingLosses;
    var n := TrailingLosses(outs);
    RunsSnoc(outs, ok);
    ReachedAppend(LossRuns(Settled(outs)), n + 1);
    ReachedAppend(LossRuns(Settled(outs)), n);
  }

  /** Once known, the gateway's address is kept: later routes are not consulted. */
  lemma {:induction false} GatewayKept(t: Track, ins: seq<Input>, k: nat)
    requires k <= |ins| && RunTrack(t, ins[..k]).gatewayResolved
    ensures RunTrack(t, ins).gatewayResolved && RunTrack(t, ins).gatewayIp == RunTrack(t, ins[..k]).gatewayIp
    decreases |ins|
  {
    hide TickTrack;
    if k == |ins| {
      assert ins[..k] == ins;
    } else {
      var front := ins[..|ins| - 1];
      assert front[..k] == ins[..k];
      GatewayKept(t, front, k);
      TickKeeps(RunTrack(t, front), ins[|ins| - 1]);
    }
  }

  lemma TickKeeps(t: Track, input: Input)
    requires t.gatewayResolved
    ensures TickTrack(t, input).gatewayResolved && TickTrack(t, input).gatewayIp == t.gatewayIp
  {
  }

  /** The gateway is the configured one, or none until the one lookup, whose answer it then is. */
  lemma {:induction false} GatewayAddress(configured: bool, mode: Mode, ip: string, sock: int, ins: seq<Input>)
    ensures var t := FreshTrack(configured, mode, ip, sock);
            var address := RunTrack(t, ins).gatewayIp;
            && (mode == Fixed ==> address == ip)
            && (mode == Disabled || !RunTrack(t, ins).gatewayResolved ==> address == "")
            && (forall k :: 0 <= k < |ins| && Effects(t, ins)[k].resolved ==>
                  address == if ins[k].route.Some? then ins[k].route.value else "")
  {
    var t := FreshTrack(configured, mode, ip, sock);
    if ins != [] {
      var front, input := ins[..|ins| - 1], ins[|ins| - 1];
      hide EffectOf, TickTrack, TrackOk, FreshTrack, Effects, RunTrack;
      assert ins == front + [input];
      RunSnoc(t, front, input);
      GatewayAddress(configured, mode, ip, sock, front);
      FreshOk(configured, mode, ip, sock);
      FreshMode(configured, mode, ip, sock);
      RunOk(t, front);
      TickAddress(RunTrack(t, front), input);
      forall k | 0 <= k < |front| && Effects(t, ins)[k].resolved
        ensures RunTrack(t, ins).gatewayIp == if ins[k].route.Some? then ins[k].route.value else ""
      {
        ResolvedStays(t, front, k);
      }
    }
  }

  lemma FreshMode(configured: bool, mode: Mode, ip: string, sock: int)
    ensures FreshTrack(configured, mode, ip, sock).mode == mode
    ensures mode == Fixed ==> FreshTrack(configured, mode, ip, sock).gatewayResolved
  {
  }

  lemma TickAddress(t: Track, input: Input)
    requires TrackOk(t)
    ensures var e, t' := EffectOf(t, input), TickTrack(t, input);
            && (t.gatewayResolved || !e.resolved ==> t'.gatewayIp == t.gatewayIp)
            && (e.resolved ==> t'.gatewayResolved && t'.gatewayIp == AddressAfter(t, input.route))
            && (e.resolved ==> !t.gatewayResolved && t.mode != Disabled)
            && (t.gatewayResolved ==> t'.gatewayResolved)
            && (t.mode == Disabled ==> !t'.gatewayResolved) && (t.mode == Fixed ==> t.gatewayResolved)
            && (t'.gatewayResolved ==> t.gatewayResolved || e.resolved)
  {
  }

  /** A tick that looked the route up leaves it resolved for good. */
  lemma ResolvedStays(t: Track, ins: seq<Input>, k: nat)
    requires TrackOk(t) && k < |ins| && Effects(t, ins)[k].resolved
    ensures RunTrack(t, ins).gatewayResolved
  {
    hide EffectOf, TickTrack, TrackOk, Effects;
    EffectAt(t, ins, k);
    RunOk(t, ins[..k]);
    TickAddress(RunTrack(t, ins[..k]), ins[k]);
    assert ins[..k + 1] == ins[..k] + [ins[k]];
    RunSnoc(t, ins[..k], ins[k]);
    GatewayKept(t, ins, k + 1);
  }

  // ---------- Address rechecks ----------

  /** Ticks 1, 12, 23, ... counted from zero. */
  predicate RecheckDue(k: nat) {
    k % 11 == 0
  }

  /** The interface had an address at a tick on which the monitor looks. */
  ghost predicate FoundBy(ins: seq<Input>, n: nat)
    requires n <= |ins|
  {
    exists k :: 0 <= k < n && RecheckDue(k) && ins[k].hasAddress
  }

  /** The state of the search after `n` ticks. */
  lemma {:induction false} RecheckState(mode: Mode, ip: string, sock: int, ins: seq<Input>)
    ensures var now := RunTrack(FreshTrack(true, mode, ip, sock), ins);
            && (now.hasLocalAddress <==> FoundBy(ins, |ins|))
            && (!now.hasLocalAddress ==>
                  now.recheckTicksLeft ==
                  (if RecheckDue(|ins|) then 0 else 11 - |ins| % 11))
  {
    if ins != [] {
      hide FoundBy, FreshTrack, TickTrack, TrackOk;
      var n := |ins| - 1;
      var front := ins[..n];
      RecheckState(mode, ip, sock, front);
      FreshOk(true, mode, ip, sock);
      RunOk(FreshTrack(true, mode, ip, sock), front);
      FoundSnoc(ins);
      var now := RunTrack(FreshTrack(true, mode, ip, sock), front);
      FreshConfigured(mode, ip, sock);
      TickRechecks(now, ins[n]);
      NextDue(n);
    } else {
      assert !FoundBy(ins, 0);
    }
  }

  lemma FreshConfigured(mode: Mode, ip: string, sock: int)
    ensures FreshTrack(true, mode, ip, sock).configured
  {
  }

  /** The rest of a tick leaves the outcome of the recheck alone. */
  lemma TickRechecks(t: Track, input: Input)
    ensures TickTrack(t, input).hasLocalAddress == Recheck(t, input.hasAddress).hasLocalAddress
    ensures TickTrack(t, input).recheckTicksLeft == Recheck(t, input.hasAddress).recheckTicksLeft
  {
  }

  lemma NextDue(n: nat)
    ensures (n + 1) % 11 == if n % 11 == 10 then 0 else n % 11 + 1
  {
  }

  lemma FoundSnoc(ins: seq<Input>)
    requires ins != []
    ensures var n := |ins| - 1;
            FoundBy(ins, |ins|) <==> FoundBy(ins[..n], n) || (RecheckDue(n) && ins[n].hasAddress)
  {
    var n := |ins| - 1;
    if FoundBy(ins[..n], n) {
      var k :| 0 <= k < n && RecheckDue(k) && ins[..n][k].hasAddress;
      assert ins[k].hasAddress;
    }
    if FoundBy(ins, |ins|) {
      var k :| 0 <= k < |ins| && RecheckDue(k) && ins[k].hasAddress;
      if k < n {
        assert ins[..n][k].hasAddress;
      }
    }
  }

  lemma EffectAt(t: Track, ins: seq<Input>, k: nat)
    requires k < |ins|
    ensures Effects(t, ins)[k] == EffectOf(RunTrack(t, ins[..k]), ins[k])
  {
    hide EffectOf, TickTrack;
    var n := |ins| - 1;
    if k < n {
      EffectAt(t, ins[..n], k);
      assert ins[..n][..k] == ins[..k];
    }
  }

  /**
   * A configured protocol asks for its address on ticks 1, 12, 23, ... until the first of them that
   * finds one and on no other tick; before that the streak stays 0, and the address is never lost again.
   */
  lemma RecheckSchedule(mode: Mode, ip: string, sock: int, ins: seq<Input>, k: nat)
    requires k < |ins|
    ensures var t := FreshTrack(true, mode, ip, sock);
            && (Effects(t, ins)[k].addressAsked <==> RecheckDue(k) && !FoundBy(ins, k))
            && (!FoundBy(ins, k) ==> RunTrack(t, ins[..k]).failStreak == 0)
            && (FoundBy(ins, k) ==> RunTrack(t, ins).hasLocalAddress)
  {
    var t := FreshTrack(true, mode, ip, sock);
    EffectAt(t, ins, k);
    RecheckState(mode, ip, sock, ins[..k]);
    RecheckState(mode, ip, sock, ins);
    FoundPrefix(ins, k);
    FreshOk(true, mode, ip, sock);
    RunOk(t, ins[..k]);
  }

  lemma FoundPrefix(ins: seq<Input>, k: nat)
    requires k <= |ins|
    ensures FoundBy(ins[..k], k) <==> FoundBy(ins, k)
    ensures FoundBy(ins, k) ==> FoundBy(ins, |ins|)
  {
    assert forall j :: 0 <= j < k ==> ins[..k][j] == ins[j];
  }

  /** How many ticks the search for an address has taken: up to the one that found it. */
  ghost function SearchLength(ins: seq<Input>): (n: nat)
    ensures n <= |ins|
    ensures !FoundBy(ins, |ins|) ==> n == |ins|
    ensures FoundBy(ins, |ins|) ==> n > 0 && RecheckDue(n - 1) && ins[n - 1].hasAddress && !FoundBy(ins, n - 1)
  {
    if ins == [] then 0
    else
      var front := ins[..|ins| - 1];
      FoundSnoc(ins);
      if FoundBy(front, |front|) then
        var n := SearchLength(front);
        FoundPrefix(ins, n - 1);
        FoundPrefix(front, n - 1);
        assert front[..n - 1] == ins[..n - 1];
        n
      else
        FoundPrefix(ins, |front|);
        |ins|
  }

  /** A search of n ticks asks floor((n + 10) / 11) times, and afterwards nothing is asked. */
  lemma {:induction false} RecheckCount(mode: Mode, ip: string, sock: int, ins: seq<Input>)
    ensures Count(Effects(FreshTrack(true, mode, ip, sock), ins), (e: Effect) => e.addressAsked) ==
            (SearchLength(ins) + 10) / 11
  {
    if ins != [] {
      var t, n := FreshTrack(true, mode, ip, sock), |ins| - 1;
      RecheckCount(mode, ip, sock, ins[..n]);
      RecheckSchedule(mode, ip, sock, ins, n);
      FoundPrefix(ins, n);
      CountSnoc(Effects(t, ins[..n]), Effects(t, ins)[n], (e: Effect) => e.addressAsked);
      NextAsk(n);
      hide EffectOf, TickTrack, FoundBy, FreshTrack;
      assert Effects(t, ins) == Effects(t, ins[..n]) + [Effects(t, ins)[n]];
    }
  }

  lemma NextAsk(n: nat)
    ensures (n + 11) / 11 == (n + 10) / 11 + if RecheckDue(n) then 1 else 0
  {
    var q, r := n / 11, n % 11;
    assert n + 11 == 11 * (q + 1) + r;
    assert (n + 11) / 11 == q + 1;
    if r == 0 {
      assert n + 10 == 11 * q + 10;
      assert (n + 10) / 11 == q;
    } else {
      assert n + 10 == 11 * (q + 1) + (r - 1);
      assert (n + 10) / 11 == q + 1;
    }
  }

  /** A protocol without a target never does anything. */
  lemma {:induction false} UnconfiguredIsIdle(mode: Mode, ip: string, sock: int, ins: seq<Input>)
    ensures var t := FreshTrack(false, mode, ip, sock);
            && RunTrack(t, ins) == t
            && Count(Effects(t, ins), (e: Effect) => e.addressAsked) == 0
  {
    if ins != [] {
      var t, front, input := FreshTrack(false, mode, ip, sock), ins[..|ins| - 1], ins[|ins| - 1];
      UnconfiguredIsIdle(mode, ip, sock, front);
      CountSnoc(Effects(t, front), EffectOf(RunTrack(t, front), input), (e: Effect) => e.addressAsked);
    }
  }

  // ---------- The calls made ----------

  /** Everything called in a run, in order, with the answers. */
  function RunCalls(target: string, t: Track, ins: seq<Input>): seq<Call> {
    if ins == [] then []
    else
      var front := ins[..|ins| - 1];
      RunCalls(target, t, front) + CallsIn(target, RunTrack(t, front), ins[|ins| - 1])
  }

  predicate IsAsk(c: Call) {
    c.Address?
  }

  predicate IsLookup(c: Call) {
    c.Route?
  }

  function Number(calls: seq<Call>, what: Call -> bool): nat {
    if calls == [] then 0 else Number(calls[..|calls| - 1], what) + if what(calls[|calls| - 1]) then 1 else 0
  }

  lemma {:induction false} NumberConcat(a: seq<Call>, b: seq<Call>, what: Call -> bool)
    ensures Number(a + b, what) == Number(a, what) + Number(b, what)
    decreases |b|
  {
    if b == [] {
      assert a + b == a;
    } else {
      var n := |b| - 1;
      NumberConcat(a, b[..n], what);
      assert (a + b)[..|a + b| - 1] == a + b[..n];
    }
  }

  lemma NumberOne(c: Call, what: Call -> bool)
    ensures Number([c], what) == (if what(c) then 1 else 0) && Number([], what) == 0
  {
    assert [c][..0] == [];
  }

  /** A tick's calls count what its effect says. */
  lemma TickNumbers(target: string, t: Track, input: Input)
    ensures var calls, e := CallsIn(target, t, input), EffectOf(t, input);
            && Number(calls, IsAsk) == Once(e.addressAsked)
            && Number(calls, IsLookup) == Once(e.resolved)
  {
    var a := if AsksAddress(t) then [Address(input.hasAddress)] else [];
    var r := Recheck(t, input.hasAddress);
    var b := if r.configured && r.hasLocalAddress && r.sock >= 0 then [Pinged(target, input.targetReply)] else [];
    var c := if ChecksGateway(t, input) && !t.gatewayResolved then [Route(input.route)] else [];
    var d := match GatewayAsked(t, input) case Some(ip) => [Pinged(ip, input.gatewayReply)] case None => [];
    hide GatewayAsked, ChecksGateway, AsksAddress, Recheck, Number;
    assert CallsIn(target, t, input) == a + b + c + d;
    FourNumbers(a, b, c, d, IsAsk);
    FourNumbers(a, b, c, d, IsLookup);
  }

  lemma FourNumbers(a: seq<Call>, b: seq<Call>, c: seq<Call>, d: seq<Call>, what: Call -> bool)
    requires |a| <= 1 && |b| <= 1 && |c| <= 1 && |d| <= 1
    ensures Number(a + b + c + d, what) ==
            Once(a != [] && what(a[0])) + Once(b != [] && what(b[0]))
            + Once(c != [] && what(c[0])) + Once(d != [] && what(d[0]))
  {
    hide Number;
    NumberConcat(a, b, what);
    NumberConcat(a + b, c, what);
    NumberConcat(a + b + c, d, what);
    SmallNumber(a, what);
    SmallNumber(b, what);
    SmallNumber(c, what);
    SmallNumber(d, what);
  }

  lemma SmallNumber(calls: seq<Call>, what: Call -> bool)
    requires |calls| <= 1
    ensures Number(calls, what) == Once(calls != [] && what(calls[0]))
  {
    if calls != [] {
      assert calls == [calls[0]];
      NumberOne(calls[0], what);
    }
  }

  /** What a run calls is what its effects say it does. */
  lemma {:induction false} RunNumbers(target: string, t: Track, ins: seq<Input>)
    ensures Number(RunCalls(target, t, ins), IsAsk) == Count(Effects(t, ins), (e: Effect) => e.addressAsked)
    ensures Number(RunCalls(target, t, ins), IsLookup) == Count(Effects(t, ins), (e: Effect) => e.resolved)
  {
    if ins != [] {
      hide EffectOf, TickTrack, CallsIn, Number;
      var front, input := ins[..|ins| - 1], ins[|ins| - 1];
      RunNumbers(target, t, front);
      var now := RunTrack(t, front);
      TickNumbers(target, now, input);
      NumberConcat(RunCalls(target, t, front), CallsIn(target, now, input), IsAsk);
      NumberConcat(RunCalls(target, t, front), CallsIn(target, now, input), IsLookup);
      CountSnoc(Effects(t, front), EffectOf(now, input), (e: Effect) => e.addressAsked);
      CountSnoc(Effects(t, front), EffectOf(now, input), (e: Effect) => e.resolved);
    } else {
      assert RunCalls(target, t, ins) == [] && Effects(t, ins) == [];
    }
  }

  /** The last call is a ping that was answered. */
  predicate Answered(calls: seq<Call>) {
    calls != [] && calls[|calls| - 1].Pinged? && calls[|calls| - 1].ok
  }

  /**
   * A protocol is healthy or blue after a tick exactly when the tick's last call was a ping that was
   * answered, by the target if healthy and by the gateway if blue.
   */
  lemma AnsweredIsShown(target: string, t: Track, input: Input)
    requires TrackOk(t)
    ensures var calls, t' := CallsIn(target, t, input), TickTrack(t, input);
            && (Answered(calls) <==> StateOf(t') == Healthy || SeverityOf(t') == Blue)
            && (Answered(calls) ==> calls[|calls| - 1].ip == if t'.failStreak == 0 then target else t'.gatewayIp)
  {
  }

  /** `p` is the gateway of the track, once there is one to ask. */
  predicate IsGateway(t: Track, p: string) {
    t.mode != Disabled && t.gatewayResolved && t.gatewayIp != "" && p == t.gatewayIp
  }

  lemma TickPings(target: string, t: Track, input: Input, c: Call)
    requires TrackOk(t) && c in CallsIn(target, t, input) && c.Pinged?
    ensures c.ip == target || IsGateway(TickTrack(t, input), c.ip)
  {
  }

  lemma GatewayStays(t: Track, input: Input, p: string)
    requires IsGateway(t, p)
    ensures IsGateway(TickTrack(t, input), p)
  {
  }

  /** Nothing is ever pinged but the target and one gateway: none when disabled, the configured one when fixed. */
  lemma {:induction false} OnlyKnownPinged(
    configured: bool, mode: Mode, ip: string, sock: int, target: string, ins: seq<Input>, c: Call)
    requires c in RunCalls(target, FreshTrack(configured, mode, ip, sock), ins) && c.Pinged? && c.ip != target
    ensures IsGateway(RunTrack(FreshTrack(configured, mode, ip, sock), ins), c.ip)
    ensures mode != Disabled && (mode == Fixed ==> c.ip == ip)
  {
    var t, front, input := FreshTrack(configured, mode, ip, sock), ins[..|ins| - 1], ins[|ins| - 1];
    FreshOk(configured, mode, ip, sock);
    RunOk(t, front);
    RunOk(t, ins);
    GatewayAddress(configured, mode, ip, sock, ins);
    hide FreshTrack, TickTrack, TrackOk, CallsIn, Effects;
    FreshMode(configured, mode, ip, sock);
    if c in RunCalls(target, t, front) {
      OnlyKnownPinged(configured, mode, ip, sock, target, front, c);
      GatewayStays(RunTrack(t, front), input, c.ip);
    } else {
      TickPings(target, RunTrack(t, front), input, c);
    }
  }
}
