/** What every run of the watcher keeps, and what its tables mean in terms of the events alone. */
module WatcherRuns {
  import opened Processes
  import opened LinkMessages
  import opened WatcherModel

  // ---------- Incremental refines declarative ----------

  /** The last netlink event about one interface, looking at no other. */
  datatype Link = Absent | Known(name: Name, up: bool)

  function LastLink(es: seq<Event>, i: int): Link {
    if es == [] then Absent
    else
      match Last(es)
      case Change(j, name, up, _) => if j == i then Known(name, up) else LastLink(Front(es), i)
      case Remove(j) => if j == i then Absent else LastLink(Front(es), i)
      case _ => LastLink(Front(es), i)
  }

  function LinkIn(w: World, i: int): Link {
    if i in w.ifaces then Known(w.ifaces[i].name, w.ifaces[i].wasUp) else Absent
  }

  lemma {:induction false} IfacesAreLastLinks(cfg: Config, es: seq<Event>, i: int)
    requires LegalRun(cfg, INIT, es)
    ensures LinkIn(WorldAfter(cfg, INIT, es), i) == LastLink(es, i)
    decreases |es|
  {
    if es != [] {
      IfacesAreLastLinks(cfg, Front(es), i);
    }
  }

  predicate About(e: Event, i: int) {
    (e.Change? || e.Remove?) && e.ifindex == i
  }

  predicate UpAs(e: Event, i: int, name: Name) {
    e.Change? && e.ifindex == i && e.name == name && e.up
  }

  predicate Reaps(e: Event, p: int) {
    (e.Reap? || e.Wait?) && e.pid == p
  }

  /**
   * Event `s` brought `i` up under `name` (it was not so before), fork() gave `p`, every later event
   * about `i` repeats that state, and `p` has not been reaped since.
   */
  ghost predicate Launch(es: seq<Event>, i: int, name: Name, p: int, s: nat) {
    && s < |es| && UpAs(es[s], i, name) && es[s].fork == p
    && LastLink(es[..s], i) != Known(name, true)
    && forall t :: s < t < |es| ==> Carries(es[t], i, name, p)
  }

  predicate Carries(e: Event, i: int, name: Name, p: int) {
    (About(e, i) ==> UpAs(e, i, name)) && !Reaps(e, p)
  }

  predicate Tracked(t: Table, i: int, name: Name, p: int) {
    i in t.byIfindex && t.byIfindex[i] == TrackedProcess(p, name)
  }

  /** `e` newly brings `i` up under `name`, as seen from `w`. */
  predicate Launches(w: World, e: Event, i: int, name: Name, p: int) {
    UpAs(e, i, name) && e.fork == p && LinkIn(w, i) != Known(name, true)
  }

  lemma ChangeTracks(cfg: Config, w: World, e: Event, i: int, name: Name, p: int)
    requires Inv(cfg, w) && Legal(w, e) && e.Change?
    ensures Tracked(Apply(cfg, w, e).table, i, name, p) <==>
            && cfg(name) && p > 0
            && ((Tracked(w.table, i, name, p) && Carries(e, i, name, p)) || Launches(w, e, i, name, p))
  {
    hide Sound, AfterFork, AfterKill;
    assert Tracked(w.table, i, name, p) ==> p > 0 by {
      TrackedPositive(w.table, i);
    }
    if e.ifindex != i {
      ChangeElsewhere(cfg, w, e, i);
    }
  }

  lemma ChangeElsewhere(cfg: Config, w: World, e: Event, i: int)
    requires Inv(cfg, w) && Legal(w, e) && e.Change? && e.ifindex != i
    ensures i in Apply(cfg, w, e).table.byIfindex <==> i in w.table.byIfindex
    ensures i in w.table.byIfindex ==> Apply(cfg, w, e).table.byIfindex[i] == w.table.byIfindex[i]
  {
    hide Sound, AfterFork, AfterKill;
  }

  lemma TrackedPositive(t: Table, i: int)
    requires TableOk(t)
    ensures i in t.byIfindex ==> t.byIfindex[i].pid > 0
  {
  }

  lemma RemoveTracks(cfg: Config, w: World, e: Event, i: int, name: Name, p: int)
    requires Inv(cfg, w) && Legal(w, e) && e.Remove?
    ensures Tracked(OnRemoved(w, e.ifindex).table, i, name, p) <==> Tracked(w.table, i, name, p) && e.ifindex != i
  {
    hide Sound, AfterKill;
  }

  lemma UntrackTracks(cfg: Config, w: World, pid: int, i: int, name: Name, p: int)
    requires Inv(cfg, w) && pid in w.table.k.children
    ensures Tracked(Untrack(w.table, pid), i, name, p) <==> Tracked(w.table, i, name, p) && pid != p
  {
    hide Sound, AfterReap;
  }

  lemma StepTracks(cfg: Config, w: World, e: Event, i: int, name: Name, p: int)
    requires Inv(cfg, w) && Legal(w, e)
    ensures Tracked(Apply(cfg, w, e).table, i, name, p) <==>
            && cfg(name) && p > 0
            && ((Tracked(w.table, i, name, p) && Carries(e, i, name, p)) || Launches(w, e, i, name, p))
  {
    hide Sound, AfterFork, AfterKill, AfterKillAll, AfterReap, AfterExit, OnChange, Start;
    TrackedPositive(w.table, i);
    match e
    case Change(_, _, _, _) => ChangeTracks(cfg, w, e, i, name, p);
    case Remove(_) => RemoveTracks(cfg, w, e, i, name, p);
    case Reap(pid) => UntrackTracks(cfg, w, pid, i, name, p);
    case Wait(pid) => UntrackTracks(cfg, w, pid, i, name, p);
    case _ =>
  }

  lemma LaunchSnoc(es: seq<Event>, i: int, name: Name, p: int)
    requires es != []
    ensures (exists s: nat :: Launch(es, i, name, p, s)) <==>
            || ((exists s: nat :: Launch(Front(es), i, name, p, s)) && Carries(Last(es), i, name, p))
            || (UpAs(Last(es), i, name) && Last(es).fork == p && LastLink(Front(es), i) != Known(name, true))
  {
    var n := |es| - 1;
    assert UpAs(Last(es), i, name) ==> Last(es).Change?;
    hide LastLink, About, UpAs, Reaps, Carries;
    forall s: nat | s < n
      ensures Launch(es, i, name, p, s) <==> Launch(Front(es), i, name, p, s) && Carries(Last(es), i, name, p)
    {
      assert es[..s] == Front(es)[..s];
      assert forall t :: s < t < n ==> es[t] == Front(es)[t];
    }
    assert Launch(es, i, name, p, n) <==>
           UpAs(Last(es), i, name) && es[n].Change? && es[n].fork == p && LastLink(Front(es), i) != Known(name, true);
  }

  /**
   * After any run, `i` is tracked with child `p` under `name` exactly when the events say so: an
   * eligible launch whose fork gave `p`, still current and not reaped.
   */
  lemma {:induction false} TrackedIsLaunched(cfg: Config, es: seq<Event>, i: int, name: Name, p: int)
    requires LegalRun(cfg, INIT, es)
    ensures Tracked(WorldAfter(cfg, INIT, es).table, i, name, p) <==>
            cfg(name) && p > 0 && exists s: nat :: Launch(es, i, name, p, s)
    decreases |es|
  {
    if es != [] {
      var w, e := WorldAfter(cfg, INIT, Front(es)), Last(es);
      TrackedIsLaunched(cfg, Front(es), i, name, p);
      RunInv(cfg, Front(es));
      StepTracks(cfg, w, e, i, name, p);
      IfacesAreLastLinks(cfg, Front(es), i);
      LaunchSnoc(es, i, name, p);
    }
  }

  // ---------- Safety of every run ----------

  /** kill() only ever hit the watcher's own unreaped children, and fork() never collides with a map key. */
  lemma PidSafety(cfg: Config, es: seq<Event>, e: Event)
    requires LegalRun(cfg, INIT, es) && Legal(WorldAfter(cfg, INIT, es), e)
    ensures var t := WorldAfter(cfg, INIT, es).table;
            && t.k.strays == 0
            && t.byPid.Keys <= t.k.children.Keys
            && (e.Change? && e.fork > 0 ==> e.fork !in t.byPid)
  {
    RunInv(cfg, es);
  }

  /** The two maps are each other's inverse. */
  lemma MapsInverse(cfg: Config, es: seq<Event>, i: int, p: int)
    requires LegalRun(cfg, INIT, es)
    ensures var t := WorldAfter(cfg, INIT, es).table;
            i in t.byIfindex && t.byIfindex[i].pid == p <==> p in t.byPid && t.byPid[p] == i
  {
    RunInv(cfg, es);
  }

  ghost predicate IsTracked(t: Table, c: nat) {
    exists p :: p in t.byPid && p in t.k.children && t.k.children[p] == c
  }

  ghost predicate IsDetached(t: Table, c: nat) {
    exists p :: p in t.k.children && p !in t.byPid && t.k.children[p] == c
  }

  /** Every child ever forked is tracked, or detached and told to stop, or reaped: exactly one of them. */
  lemma ChildConservation(cfg: Config, es: seq<Event>, c: nat)
    requires LegalRun(cfg, INIT, es)
    requires c < WorldAfter(cfg, INIT, es).table.k.forks
    ensures var t := WorldAfter(cfg, INIT, es).table;
            && (IsTracked(t, c) || IsDetached(t, c) || c in t.k.reaped)
            && !(IsTracked(t, c) && IsDetached(t, c))
            && !(IsTracked(t, c) && c in t.k.reaped)
            && !(IsDetached(t, c) && c in t.k.reaped)
            && (IsDetached(t, c) ==> c in t.k.termed)
  {
    RunInv(cfg, es);
    var t := WorldAfter(cfg, INIT, es).table;
    if c !in t.k.reaped {
      var p :| p in t.k.children && t.k.children[p] == c;
      if p in t.byPid {
        assert IsTracked(t, c);
      } else {
        assert IsDetached(t, c);
      }
    }
  }

  /** Whenever the loop is back at poll(), an exited child means SIGCHLD is pending. */
  lemma NoExitLost(cfg: Config, es: seq<Event>)
    requires LegalRun(cfg, INIT, es)
    requires WorldAfter(cfg, INIT, es).phase.Serving? && WorldAfter(cfg, INIT, es).table.k.zombies != {}
    ensures WorldAfter(cfg, INIT, es).table.k.chldPending
    ensures Legal(WorldAfter(cfg, INIT, es), TakeChld)
  {
    RunInv(cfg, es);
  }

  /** start()'s already-running test never fires: whenever a change starts a child, none is tracked. */
  lemma StartGuardNeverFires(cfg: Config, es: seq<Event>, i: int, name: Name, up: bool, fork: int)
    requires LegalRun(cfg, INIT, es) && Legal(WorldAfter(cfg, INIT, es), Change(i, name, up, fork))
    requires up && LastLink(es, i) != Known(name, true)
    ensures var w := WorldAfter(cfg, INIT, es);
            var state := LastLink(es, i);
            var table := if state.Known? && state.up then Stop(w.table, i) else w.table;
            && i !in table.byIfindex
            && OnChange(cfg, w, i, name, up, fork).table == StartIfEligible(cfg, table, i, name, fork)
  {
    RunInv(cfg, es);
    IfacesAreLastLinks(cfg, es, i);
    hide Sound;
  }

  /** After `es`, event `e` newly brings an interface up under an eligible name. */
  predicate Begins(cfg: Config, es: seq<Event>, e: Event) {
    e.Change? && e.up && cfg(e.name) && LastLink(es, e.ifindex) != Known(e.name, true)
  }

  function Beginnings(cfg: Config, es: seq<Event>): nat {
    if es == [] then 0 else Beginnings(cfg, Front(es)) + if Begins(cfg, Front(es), Last(es)) then 1 else 0
  }

  lemma StartAttempts(t: Table, ifindex: int, name: Name, fork: int)
    ensures Start(t, ifindex, name, fork).k.attempts == t.k.attempts + if ifindex in t.byIfindex then 0 else 1
  {
  }

  lemma StopAttempts(t: Table, ifindex: int)
    ensures Stop(t, ifindex).k.attempts == t.k.attempts
  {
  }

  lemma ChangeAttempts(cfg: Config, w: World, e: Event)
    requires IfacesOk(cfg, w) && Legal(w, e) && e.Change?
    ensures OnChange(cfg, w, e.ifindex, e.name, e.up, e.fork).table.k.attempts ==
            w.table.k.attempts + if e.up && cfg(e.name) && LinkIn(w, e.ifindex) != Known(e.name, true) then 1 else 0
  {
    StartAttempts(w.table, e.ifindex, e.name, e.fork);
    StartAttempts(Stop(w.table, e.ifindex), e.ifindex, e.name, e.fork);
    StopAttempts(w.table, e.ifindex);
    StopTracks(w.table, e.ifindex);
    hide Start, Stop;
  }

  lemma AttemptStep(cfg: Config, w: World, e: Event)
    requires Inv(cfg, w) && Legal(w, e)
    ensures Apply(cfg, w, e).table.k.attempts ==
            w.table.k.attempts
            + if e.Change? && e.up && cfg(e.name) && LinkIn(w, e.ifindex) != Known(e.name, true) then 1 else 0
  {
    hide TableOk, IfacesOk, OnChange, Start, Stop;
    match e
    case Change(_, _, _, _) => ChangeAttempts(cfg, w, e);
    case Remove(ifindex) => StopAttempts(w.table, ifindex);
    case _ =>
  }

  /** fork() is called once for each eligible up-episode, whether it fails or not, and never otherwise. */
  lemma {:induction false} ForkPerEpisode(cfg: Config, es: seq<Event>)
    requires LegalRun(cfg, INIT, es)
    ensures WorldAfter(cfg, INIT, es).table.k.attempts == Beginnings(cfg, es)
    decreases |es|
  {
    if es != [] {
      ForkPerEpisode(cfg, Front(es));
      RunInv(cfg, Front(es));
      hide Apply, Legal, Inv;
      AttemptStep(cfg, WorldAfter(cfg, INIT, Front(es)), Last(es));
      if Last(es).Change? {
        IfacesAreLastLinks(cfg, Front(es), Last(es).ifindex);
      }
    }
  }

  // ---------- SIGTERM at most once ----------

  /** No signal was spent on a child twice, and until shutdown no tracked child was sent one. */
  ghost predicate TermsOk(t: Table, phase: Phase) {
    && t.k.signals == |t.k.termed| && (forall c | c in t.k.termed :: c < t.k.forks)
    && (phase.Serving? || phase.Reaping? ==>
          forall p | p in t.byPid && p in t.k.children :: t.k.children[p] !in t.k.termed)
  }

  lemma StartTerms(t: Table, ifindex: int, name: Name, fork: int, phase: Phase)
    requires TableOk(t) && TermsOk(t, phase) && (fork > 0 ==> CanFork(t.k, fork))
    ensures TermsOk(Start(t, ifindex, name, fork), phase)
  {
    hide Sound;
  }

  lemma StopTerms(t: Table, ifindex: int, phase: Phase)
    requires TableOk(t) && TermsOk(t, phase) && phase.Serving?
    ensures TermsOk(Stop(t, ifindex), phase)
  {
    if ifindex in t.byIfindex {
      var pid := t.byIfindex[ifindex].pid;
      assert pid in t.byPid && pid in t.k.children && t.k.children[pid] !in t.k.termed;
    }
  }

  lemma ChangeTerms(cfg: Config, w: World, e: Event)
    requires TableOk(w.table) && TermsOk(w.table, w.phase) && Legal(w, e) && e.Change?
    ensures TermsOk(OnChange(cfg, w, e.ifindex, e.name, e.up, e.fork).table, w.phase)
  {
    hide TableOk, Start, Stop, TermsOk;
    StopOk(w.table, e.ifindex);
    StopTerms(w.table, e.ifindex, w.phase);
    StartTerms(w.table, e.ifindex, e.name, e.fork, w.phase);
    StartTerms(Stop(w.table, e.ifindex), e.ifindex, e.name, e.fork, w.phase);
  }

  lemma UntrackTerms(t: Table, pid: int, phase: Phase, phase': Phase)
    requires pid in t.k.children && TermsOk(t, phase)
    requires phase'.Serving? || phase'.Reaping? ==> phase.Serving? || phase.Reaping?
    ensures TermsOk(Untrack(t, pid), phase')
  {
  }

  lemma {:induction false} BirthsSize(k: Kernel, pids: set<int>)
    requires Sound(k) && pids <= k.children.Keys
    ensures |Births(k, pids)| == |pids|
  {
    if pids != {} {
      var p := SomeElement(pids);
      BirthsSize(k, pids - {p});
      BirthsStep(k, pids, p);
      assert k.children[p] !in Births(k, pids - {p});
    }
  }

  lemma BirthsUnsent(t: Table, phase: Phase)
    requires TableOk(t) && TermsOk(t, phase) && phase.Serving?
    ensures Births(t.k, t.byPid.Keys) !! t.k.termed
    ensures forall c | c in Births(t.k, t.byPid.Keys) :: c < t.k.forks
  {
  }

  lemma DisjointSize<T>(a: set<T>, b: set<T>)
    requires a !! b
    ensures |a + b| == |a| + |b|
  {
  }

  lemma ShutdownTerms(t: Table, phase: Phase, phase': Phase)
    requires TableOk(t) && TermsOk(t, phase) && phase.Serving? && phase'.Stopping?
    ensures TermsOk(t.(k := AfterKillAll(t.k, t.byPid.Keys)), phase')
  {
    hide Sound, Births, Strangers;
    BirthsSize(t.k, t.byPid.Keys);
    BirthsUnsent(t, phase);
    DisjointSize(t.k.termed, Births(t.k, t.byPid.Keys));
  }

  lemma StepTerms(cfg: Config, w: World, e: Event)
    requires TableOk(w.table) && TermsOk(w.table, w.phase) && Legal(w, e)
    ensures TermsOk(Apply(cfg, w, e).table, Apply(cfg, w, e).phase)
  {
    match e
    case Change(_, _, _, _) =>
      hide TableOk, TermsOk;
      ChangeTerms(cfg, w, e);
      ChangePhase(cfg, w, e);
      hide OnChange;
    case Remove(ifindex) =>
      hide TableOk, TermsOk, Stop;
      StopTerms(w.table, ifindex, w.phase);
    case Reap(pid) =>
      hide TableOk, TermsOk, Untrack;
      UntrackTerms(w.table, pid, w.phase, w.phase);
    case Wait(pid) =>
      hide TableOk, TermsOk, Untrack;
      UntrackTerms(w.table, pid, w.phase, Stopping(w.phase.reaps + 1, w.phase.atStart));
    case Shutdown =>
      hide TableOk, TermsOk, AfterKillAll;
      ShutdownTerms(w.table, w.phase, Stopping(0, |w.table.k.children|));
    case _ =>
      hide TableOk;
  }

  lemma ChangePhase(cfg: Config, w: World, e: Event)
    requires e.Change?
    ensures OnChange(cfg, w, e.ifindex, e.name, e.up, e.fork).phase == w.phase
  {
  }

  /** kill() is called at most once for each child: the signals sent are as many as the children told to stop. */
  lemma {:induction false} OneTermEach(cfg: Config, es: seq<Event>)
    requires LegalRun(cfg, INIT, es)
    ensures var w := WorldAfter(cfg, INIT, es);
            TermsOk(w.table, w.phase) && w.table.k.signals == |w.table.k.termed|
    decreases |es|
  {
    if es != [] {
      var w := WorldAfter(cfg, INIT, Front(es));
      OneTermEach(cfg, Front(es));
      RunInv(cfg, Front(es));
      hide Apply, Legal, TableOk, IfacesOk, PhaseOk, TermsOk;
      StepTerms(cfg, w, Last(es));
      TermsCount(Apply(cfg, w, Last(es)));
    }
  }

  lemma TermsCount(w: World)
    requires TermsOk(w.table, w.phase)
    ensures w.table.k.signals == |w.table.k.termed|
  {
  }

  // ---------- Late reaping ----------

  /** Child `c`, known as `p`, is unreaped but no longer in the table. */
  predicate Detached(t: Table, p: int, c: nat) {
    p in t.k.children && t.k.children[p] == c && p !in t.byPid
  }

  lemma StepKeepsDetached(cfg: Config, w: World, e: Event, p: int, c: nat)
    requires Inv(cfg, w) && Legal(w, e) && Detached(w.table, p, c) && !Reaps(e, p)
    ensures Detached(Apply(cfg, w, e).table, p, c)
  {
    hide Sound;
  }

  /**
   * A stopped child is never tracked again, so reaping it, however late and whatever was started on
   * its interface in between, leaves both maps as they are.
   */
  lemma {:induction false} LateReapIsHarmless(cfg: Config, es: seq<Event>, more: seq<Event>, p: int, c: nat)
    requires LegalRun(cfg, INIT, es) && Detached(WorldAfter(cfg, INIT, es).table, p, c)
    requires LegalRun(cfg, WorldAfter(cfg, INIT, es), more) && forall e | e in more :: !Reaps(e, p)
    ensures LegalRun(cfg, INIT, es + more)
    ensures var t := WorldAfter(cfg, INIT, es + more).table;
            Detached(t, p, c) && Untrack(t, p).byIfindex == t.byIfindex && Untrack(t, p).byPid == t.byPid
    decreases |more|
  {
    RunConcat(cfg, INIT, es, more);
    if more == [] {
      assert es + more == es;
    } else {
      LateReapIsHarmless(cfg, es, Front(more), p, c);
      RunConcat(cfg, INIT, es, Front(more));
      RunInv(cfg, es + Front(more));
      StepKeepsDetached(cfg, WorldAfter(cfg, INIT, es + Front(more)), Last(more), p, c);
    }
  }

  // ---------- Replaying the dump ----------

  /** `e` repeats what is already known of its interface. */
  predicate Repeats(w: World, e: Event) {
    e.Change? && LinkIn(w, e.ifindex) == Known(e.name, e.up) && (e.fork > 0 ==> CanFork(w.table.k, e.fork))
  }

  /** Delivering again the last state of any known interfaces, in any order, changes nothing at all. */
  lemma {:induction false} ReplayIsNoOp(cfg: Config, es: seq<Event>, replay: seq<Event>)
    requires LegalRun(cfg, INIT, es) && WorldAfter(cfg, INIT, es).phase.Serving?
    requires forall e | e in replay :: Repeats(WorldAfter(cfg, INIT, es), e)
    ensures LegalRun(cfg, WorldAfter(cfg, INIT, es), replay)
    ensures WorldAfter(cfg, WorldAfter(cfg, INIT, es), replay) == WorldAfter(cfg, INIT, es)
    decreases |replay|
  {
    if replay != [] {
      var w := WorldAfter(cfg, INIT, es);
      ReplayIsNoOp(cfg, es, Front(replay));
      RunInv(cfg, es);
      assert Last(replay) in replay;
      var e := Last(replay);
      assert w.ifaces[e.ifindex := IfaceState(e.name, e.up)] == w.ifaces;
    }
  }

  // ---------- Shutdown ----------

  /** When the watcher has finished, every child it ever forked was told to stop or was reaped. */
  lemma NoOrphans(cfg: Config, es: seq<Event>, c: nat)
    requires LegalRun(cfg, INIT, es) && WorldAfter(cfg, INIT, es).phase.Finished?
    requires c < WorldAfter(cfg, INIT, es).table.k.forks
    ensures c in WorldAfter(cfg, INIT, es).table.k.termed || c in WorldAfter(cfg, INIT, es).table.k.reaped
  {
    RunInv(cfg, es);
    var k := WorldAfter(cfg, INIT, es).table.k;
    if c !in k.reaped {
      var p :| p in k.children && k.children[p] == c;
    }
  }

  /**
   * stopAll reaps at most 200 children. With at most 200 unreaped when it starts both maps end
   * empty; they can stay non-empty only after exactly 200 reaps.
   */
  lemma ShutdownBound(cfg: Config, es: seq<Event>)
    requires LegalRun(cfg, INIT, es) && WorldAfter(cfg, INIT, es).phase.Finished?
    ensures var w := WorldAfter(cfg, INIT, es);
            && w.phase.reaps <= 200
            && (w.phase.atStart <= 200 ==> w.table.byPid == map[] && w.table.byIfindex == map[])
            && (w.table.byPid != map[] ==> w.phase.reaps == 200)
            && (w.table.byPid == map[] <==> w.table.byIfindex == map[])
  {
    RunInv(cfg, es);
    hide LegalRun, WorldAfter;
    FinishedBound(cfg, WorldAfter(cfg, INIT, es));
  }

  lemma FinishedBound(cfg: Config, w: World)
    requires Inv(cfg, w) && w.phase.Finished?
    ensures w.phase.reaps <= 200
    ensures w.phase.atStart <= 200 ==> w.table.byPid == map[] && w.table.byIfindex == map[]
    ensures w.table.byPid != map[] ==> w.phase.reaps == 200
    ensures w.table.byPid == map[] <==> w.table.byIfindex == map[]
  {
    hide Sound;
    EmptyTogether(w.table);
    if w.phase.atStart <= 200 && w.phase.reaps == 200 {
      assert |w.table.k.children| == 0;
      assert w.table.byPid.Keys <= w.table.k.children.Keys == {};
      assert w.table.byPid == map[];
    }
  }

  /** stopAll waits only as long as something is tracked: each child it reaps, it reaps on a non-empty table. */
  lemma {:induction false} WaitsWhileTracked(cfg: Config, es: seq<Event>, k: nat)
    requires LegalRun(cfg, INIT, es) && k < |es| && es[k].Wait?
    ensures LegalRun(cfg, INIT, es[..k])
    ensures WorldAfter(cfg, INIT, es[..k]).table.byPid != map[]
    ensures WorldAfter(cfg, INIT, es[..k]).phase.Stopping? && WorldAfter(cfg, INIT, es[..k]).phase.reaps < 200
    decreases |es|
  {
    if k == |es| - 1 {
      assert Front(es) == es[..k];
    } else {
      WaitsWhileTracked(cfg, Front(es), k);
      assert Front(es)[..k] == es[..k];
    }
  }

  lemma EmptyTogether(t: Table)
    requires TableOk(t)
    ensures t.byPid == map[] <==> t.byIfindex == map[]
  {
    if t.byPid != map[] {
      var p := SomeKey(t.byPid);
      assert t.byPid[p] in t.byIfindex;
    }
    if t.byIfindex != map[] {
      var i := SomeKey(t.byIfindex);
      assert t.byIfindex[i].pid in t.byPid;
    }
  }

  lemma SomeElement<T>(s: set<T>) returns (x: T)
    requires s != {}
    ensures x in s
  {
    x :| x in s;
  }

  lemma SomeKey<K, V>(m: map<K, V>) returns (k: K)
    requires m != map[]
    ensures k in m
  {
    assert m.Keys != {};
    k := SomeElement(m.Keys);
  }

  /** A waitpid() on behalf of a non-empty table always has a child to wait for: ECHILD cannot end the loop early. */
  lemma NoEarlyEchild(cfg: Config, es: seq<Event>)
    requires LegalRun(cfg, INIT, es) && WorldAfter(cfg, INIT, es).table.byPid != map[]
    ensures WorldAfter(cfg, INIT, es).table.k.children != map[]
  {
    RunInv(cfg, es);
    var t := WorldAfter(cfg, INIT, es).table;
    var p := SomeKey(t.byPid);
    assert p in t.k.children;
  }

  lemma SomeOther<T>(s: set<T>, x: T) returns (y: T)
    requires x in s && |s| > 1
    ensures y in s && y != x
  {
    assert |s - {x}| == |s| - 1;
    y := SomeElement(s - {x});
  }

  /** While stopAll waits, `q` may exit if it has not yet. */
  lemma LetExit(cfg: Config, w: World, q: int)
    requires Inv(cfg, w) && w.phase.Stopping? && q in w.table.k.children
    ensures var exits := {q} - w.table.k.zombies;
            var now := w.(table := w.table.(k := AfterExit(w.table.k, exits)));
            && Legal(w, Exit(exits)) && Apply(cfg, w, Exit(exits)) == now
            && Inv(cfg, now) && q in now.table.k.zombies
  {
    StepInv(cfg, w, Exit({q} - w.table.k.zombies));
    hide Sound, TableOk;
  }

  /** stopAll's waitpid() may then return it, which leaves any other child tracked. */
  lemma WaitSpares(cfg: Config, w: World, q: int, p: int)
    requires Inv(cfg, w) && w.phase.Stopping? && w.phase.reaps < STOP_LIMIT
    requires p in w.table.byPid && p != q && q in w.table.k.zombies && q in w.table.k.children
    ensures Legal(w, Wait(q))
    ensures var w' := Apply(cfg, w, Wait(q));
            && Inv(cfg, w') && w'.phase == Stopping(w.phase.reaps + 1, w.phase.atStart)
            && p in w'.table.byPid && |w'.table.k.children| == |w.table.k.children| - 1
  {
    assert Legal(w, Wait(q));
    StepInv(cfg, w, Wait(q));
    ReapInv(cfg, w, q);
    UntrackKeeps(w.table, q, p);
    hide Sound, TableOk, IfacesOk, Inv, Untrack;
  }

  lemma UntrackKeeps(t: Table, q: int, p: int)
    requires q in t.k.children && p in t.byPid && p != q
    ensures p in Untrack(t, q).byPid
  {
  }

  /** One more reap that spares `p`. */
  lemma SpareOnce(cfg: Config, w: World, p: int) returns (es: seq<Event>)
    requires Inv(cfg, w) && w.phase.Stopping? && w.phase.reaps < STOP_LIMIT
    requires p in w.table.byPid && |w.table.k.children| > 1
    ensures LegalRun(cfg, w, es) && Inv(cfg, WorldAfter(cfg, w, es))
    ensures var w' := WorldAfter(cfg, w, es);
            && w'.phase == Stopping(w.phase.reaps + 1, w.phase.atStart)
            && p in w'.table.byPid && |w'.table.k.children| == |w.table.k.children| - 1
  {
    assert |w.table.k.children.Keys| > 1 && p in w.table.k.children.Keys;
    var q := SomeOther(w.table.k.children.Keys, p);
    var exits := {q} - w.table.k.zombies;
    LetExit(cfg, w, q);
    hide Inv, Legal, Apply, LegalRun, WorldAfter;
    RunOne(cfg, w, Exit(exits));
    WaitSpares(cfg, WorldAfter(cfg, w, [Exit(exits)]), q, p);
    es := [Exit(exits)] + [Wait(q)];
    RunSnoc(cfg, w, [Exit(exits)], Wait(q));
  }

  /** With more children than reaps left, the kernel may hand over every other child and leave `p` tracked. */
  lemma {:induction false} SpareToTheEnd(cfg: Config, w: World, p: int) returns (es: seq<Event>)
    requires Inv(cfg, w) && w.phase.Stopping? && p in w.table.byPid
    requires |w.table.k.children| > STOP_LIMIT - w.phase.reaps
    ensures LegalRun(cfg, w, es) && WorldAfter(cfg, w, es).phase.Finished? && p in WorldAfter(cfg, w, es).table.byPid
    decreases STOP_LIMIT - w.phase.reaps
  {
    if w.phase.reaps >= STOP_LIMIT {
      es := [Finish];
      RunOne(cfg, w, Finish);
    } else {
      var first := SpareOnce(cfg, w, p);
      var rest := SpareToTheEnd(cfg, WorldAfter(cfg, w, first), p);
      RunConcat(cfg, w, first, rest);
      es := first + rest;
    }
  }

  predicate IsStopping(phase: Phase) {
    phase.Stopping? || phase.Finished?
  }

  lemma StoppingStep(cfg: Config, w: World, e: Event)
    requires IsStopping(w.phase) && Legal(w, e)
    ensures var w' := Apply(cfg, w, e);
            IsStopping(w'.phase) && w'.phase.atStart == w.phase.atStart && w'.table.byPid.Keys <= w.table.byPid.Keys
  {
  }

  /** Nothing is started any more once stopAll runs. */
  lemma {:induction false} StoppingRun(cfg: Config, w: World, es: seq<Event>)
    requires IsStopping(w.phase) && LegalRun(cfg, w, es)
    ensures var w' := WorldAfter(cfg, w, es);
            IsStopping(w'.phase) && w'.phase.atStart == w.phase.atStart && w'.table.byPid.Keys <= w.table.byPid.Keys
    decreases |es|
  {
    hide Legal, Apply;
    if es != [] {
      StoppingRun(cfg, w, Front(es));
      StoppingStep(cfg, WorldAfter(cfg, w, Front(es)), Last(es));
    }
  }

  /** The run `es` may go on to a finish that leaves a tracked child behind. */
  ghost predicate CanLeaveOne(cfg: Config, es: seq<Event>) {
    exists more: seq<Event> :: LeavesOne(cfg, es + more)
  }

  ghost predicate LeavesOne(cfg: Config, es: seq<Event>) {
    && LegalRun(cfg, INIT, es)
    && WorldAfter(cfg, INIT, es).phase.Finished? && WorldAfter(cfg, INIT, es).table.byPid != map[]
  }

  /**
   * The bound of ShutdownBound is exact: when stopAll starts waiting, a tracked child can be left
   * behind if and only if there is one and more than 200 children are unreaped.
   */
  lemma LeftoverExact(cfg: Config, es: seq<Event>)
    requires LegalRun(cfg, INIT, es)
    requires WorldAfter(cfg, INIT, es).phase.Stopping? && WorldAfter(cfg, INIT, es).phase.reaps == 0
    ensures var w := WorldAfter(cfg, INIT, es);
            CanLeaveOne(cfg, es) <==> w.phase.atStart > 200 && w.table.byPid != map[]
  {
    RunInv(cfg, es);
    var w := WorldAfter(cfg, INIT, es);
    if w.phase.atStart > STOP_LIMIT && w.table.byPid != map[] {
      var p := SomeKey(w.table.byPid);
      var more := SpareToTheEnd(cfg, w, p);
      RunConcat(cfg, INIT, es, more);
      assert LeavesOne(cfg, es + more);
    }
    hide Inv, LegalRun, WorldAfter;
    if CanLeaveOne(cfg, es) {
      var more: seq<Event> :| LeavesOne(cfg, es + more);
      RunSplit(cfg, INIT, es, more);
      StoppingRun(cfg, w, more);
      ShutdownBound(cfg, es + more);
      var p := SomeKey(WorldAfter(cfg, INIT, es + more).table.byPid);
      assert p in w.table.byPid;
    }
  }

  lemma {:induction false} RunSplit(cfg: Config, w: World, es: seq<Event>, more: seq<Event>)
    requires LegalRun(cfg, w, es + more)
    ensures LegalRun(cfg, w, es) && LegalRun(cfg, WorldAfter(cfg, w, es), more)
    ensures WorldAfter(cfg, w, es + more) == WorldAfter(cfg, WorldAfter(cfg, w, es), more)
    decreases |more|
  {
    hide Apply, Legal;
    if more == [] {
      assert es + more == es;
    } else {
      assert Front(es + more) == es + Front(more);
      RunSplit(cfg, w, es, Front(more));
    }
  }

  // ---------- Too many children ----------

  /** After `n` link events: as many children, all tracked and alive. */
  ghost predicate Serves(w: World, n: nat) {
    && w.phase.Serving? && |w.table.k.children| == n && w.table.k.zombies == {}
    && (forall i | i in w.ifaces :: i <= n)
    && (forall p | p in w.table.k.children :: p <= n)
    && (n > 0 ==> w.table.byPid != map[])
  }

  lemma OneMore(cfg: Config, w: World, n: nat, name: Name)
    requires Inv(cfg, w) && Serves(w, n) && cfg(name) && name != []
    ensures var e := Change(n + 1, name, true, n + 1);
            Legal(w, e) && Serves(Apply(cfg, w, e), n + 1)
  {
    hide Sound;
    var w' := Apply(cfg, w, Change(n + 1, name, true, n + 1));
    assert w'.table.k == AfterFork(w.table.k, n + 1);
    assert n + 1 in w'.table.byPid;
  }

  /** Any number of interfaces may come up, each with a child of its own. */
  lemma {:induction false} ManyChildren(cfg: Config, name: Name, n: nat) returns (es: seq<Event>)
    requires cfg(name) && name != []
    ensures LegalRun(cfg, INIT, es) && Serves(WorldAfter(cfg, INIT, es), n)
  {
    es := [];
    if n > 0 {
      hide Apply, Legal, Serves;
      var before := ManyChildren(cfg, name, n - 1);
      RunInv(cfg, before);
      OneMore(cfg, WorldAfter(cfg, INIT, before), n - 1, name);
      RunSnoc(cfg, INIT, before, Change(n, name, true, n));
      es := before + [Change(n, name, true, n)];
    }
  }

  /** The events that make stopAll miss a child: 201 interfaces, each with a running monitor, and a SIGTERM. */
  lemma LeftoverExample(cfg: Config, name: Name) returns (es: seq<Event>)
    requires cfg(name) && name != []
    ensures LegalRun(cfg, INIT, es) && WorldAfter(cfg, INIT, es).phase == Stopping(0, 201)
    ensures CanLeaveOne(cfg, es)
  {
    var before := ManyChildren(cfg, name, STOP_LIMIT + 1);
    var w := WorldAfter(cfg, INIT, before);
    hide LegalRun, WorldAfter, CanLeaveOne;
    RunSnoc(cfg, INIT, before, Shutdown);
    es := before + [Shutdown];
    LeftoverExact(cfg, es);
  }
}
