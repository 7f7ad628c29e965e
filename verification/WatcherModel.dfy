/**
 * The watcher as a state machine: one event per netlink callback, system call result or change of
 * the kernel's own. The classes of ProcessManager.dfy and Watcher.dfy are proved to take these steps.
 */
module WatcherModel {
  import opened Processes
  import opened LinkMessages

  /** config.hpp's isEligible, for a fixed configuration. */
  type Config = Name -> bool

  datatype TrackedProcess = TrackedProcess(pid: int, iface: Name)

  /** The two maps of ProcessManager, beside the kernel they describe. */
  datatype Table = Table(byIfindex: map<int, TrackedProcess>, byPid: map<int, int>, k: Kernel)

  datatype IfaceState = IfaceState(name: Name, wasUp: bool)

  /** Where the event loop is; `Stopping` and `Finished` count stopAll's reaps and its initial children. */
  datatype Phase = Serving | Reaping | Stopping(reaps: nat, atStart: nat) | Finished(reaps: nat, atStart: nat)

  datatype World = World(ifaces: map<int, IfaceState>, table: Table, phase: Phase)

  const INIT := World(map[], Table(map[], map[], BOOT), Serving)
  const STOP_LIMIT := 200

  datatype Event =
    | Change(ifindex: int, name: Name, up: bool, fork: int) // fork: what fork() returns if it is called
    | Remove(ifindex: int)
    | Exit(pids: set<int>)
    | TakeChld      // read() on the signalfd returns SIGCHLD
    | Reap(pid: int) // reapExited's waitpid() returns a child
    | NoneLeft      // reapExited's waitpid() returns no child
    | Shutdown      // the poll loop is over; stopAll has sent its signals
    | Wait(pid: int) // stopAll's waitpid() returns a child
    | Finish

  // ---------- process_manager.cpp ----------

  function Start(t: Table, ifindex: int, name: Name, fork: int): Table {
    if ifindex in t.byIfindex then t
    else if fork <= 0 then t.(k := AfterForkFailure(t.k))
    else Table(t.byIfindex[ifindex := TrackedProcess(fork, name)], t.byPid[fork := ifindex], AfterFork(t.k, fork))
  }

  function Stop(t: Table, ifindex: int): Table {
    if ifindex !in t.byIfindex then t
    else
      var pid := t.byIfindex[ifindex].pid;
      Table(t.byIfindex - {ifindex}, t.byPid - {pid}, AfterKill(t.k, pid))
  }

  /** What both reaping loops do with a pid waitpid() returned. */
  function Untrack(t: Table, pid: int): Table
    requires pid in t.k.children
  {
    var k := AfterReap(t.k, pid);
    if pid in t.byPid then Table(t.byIfindex - {t.byPid[pid]}, t.byPid - {pid}, k) else t.(k := k)
  }

  // ---------- watcher_iface_state.cpp ----------

  function StartIfEligible(cfg: Config, t: Table, ifindex: int, name: Name, fork: int): Table {
    if cfg(name) then Start(t, ifindex, name, fork) else t
  }

  function OnChange(cfg: Config, w: World, ifindex: int, name: Name, up: bool, fork: int): World {
    var state := if ifindex in w.ifaces then w.ifaces[ifindex] else IfaceState([], false);
    var renamed := state.name != [] && state.name != name;
    var ifaces := w.ifaces[ifindex := IfaceState(name, up)];
    var table :=
      if renamed && state.wasUp then
        var stopped := Stop(w.table, ifindex);
        if up then StartIfEligible(cfg, stopped, ifindex, name, fork) else stopped
      else if up == state.wasUp then w.table
      else if up then StartIfEligible(cfg, w.table, ifindex, name, fork)
      else Stop(w.table, ifindex);
    World(ifaces, table, w.phase)
  }

  function OnRemoved(w: World, ifindex: int): World {
    if ifindex !in w.ifaces then w
    else World(w.ifaces - {ifindex}, if w.ifaces[ifindex].wasUp then Stop(w.table, ifindex) else w.table, w.phase)
  }

  // ---------- Steps and runs ----------

  /** When the program and the kernel can take a step. */
  predicate Legal(w: World, e: Event) {
    var k := w.table.k;
    match e
    case Change(_, name, _, fork) => w.phase.Serving? && name != [] && (fork > 0 ==> CanFork(k, fork))
    case Remove(_) => w.phase.Serving?
    case Exit(pids) => CanExit(k, pids)
    case TakeChld => w.phase.Serving? && k.chldPending
    case Reap(pid) => w.phase.Reaping? && pid in k.zombies && pid in k.children
    case NoneLeft => w.phase.Reaping? && k.zombies == {}
    case Shutdown => w.phase.Serving?
    case Wait(pid) =>
      && w.phase.Stopping? && w.phase.reaps < STOP_LIMIT && w.table.byPid != map[]
      && pid in k.zombies && pid in k.children
    case Finish =>
      && w.phase.Stopping?
      && (w.phase.reaps >= STOP_LIMIT || w.table.byPid == map[] || k.children == map[])
  }

  function Apply(cfg: Config, w: World, e: Event): World
    requires Legal(w, e)
  {
    var t := w.table;
    match e
    case Change(ifindex, name, up, fork) => OnChange(cfg, w, ifindex, name, up, fork)
    case Remove(ifindex) => OnRemoved(w, ifindex)
    case Exit(pids) => w.(table := t.(k := AfterExit(t.k, pids)))
    case TakeChld => w.(table := t.(k := t.k.(chldPending := false)), phase := Reaping)
    case Reap(pid) => w.(table := Untrack(t, pid))
    case NoneLeft => w.(phase := Serving)
    case Shutdown => w.(table := t.(k := AfterKillAll(t.k, t.byPid.Keys)), phase := Stopping(0, |t.k.children|))
    case Wait(pid) => w.(table := Untrack(t, pid), phase := Stopping(w.phase.reaps + 1, w.phase.atStart))
    case Finish => w.(phase := Finished(w.phase.reaps, w.phase.atStart))
  }

  function Front(es: seq<Event>): seq<Event>
    requires es != []
  {
    es[..|es| - 1]
  }

  function Last(es: seq<Event>): Event
    requires es != []
  {
    es[|es| - 1]
  }

  /** The world after `es` from `w`, when every step of it is legal. */
  predicate LegalRun(cfg: Config, w: World, es: seq<Event>)
    decreases |es|, 0
  {
    es == [] || (LegalRun(cfg, w, Front(es)) && Legal(WorldAfter(cfg, w, Front(es)), Last(es)))
  }

  function WorldAfter(cfg: Config, w: World, es: seq<Event>): World
    requires LegalRun(cfg, w, es)
    decreases |es|, 1
  {
    if es == [] then w else Apply(cfg, WorldAfter(cfg, w, Front(es)), Last(es))
  }

  lemma RunSnoc(cfg: Config, w: World, es: seq<Event>, e: Event)
    requires LegalRun(cfg, w, es) && Legal(WorldAfter(cfg, w, es), e)
    ensures LegalRun(cfg, w, es + [e]) && WorldAfter(cfg, w, es + [e]) == Apply(cfg, WorldAfter(cfg, w, es), e)
  {
    hide Apply, Legal;
    assert Front(es + [e]) == es;
  }

  lemma RunOne(cfg: Config, w: World, e: Event)
    requires Legal(w, e)
    ensures LegalRun(cfg, w, [e]) && WorldAfter(cfg, w, [e]) == Apply(cfg, w, e)
  {
    RunSnoc(cfg, w, [], e);
    assert [] + [e] == [e];
  }

  lemma {:induction false} RunConcat(cfg: Config, w: World, es: seq<Event>, more: seq<Event>)
    requires LegalRun(cfg, w, es) && LegalRun(cfg, WorldAfter(cfg, w, es), more)
    ensures LegalRun(cfg, w, es + more)
    ensures WorldAfter(cfg, w, es + more) == WorldAfter(cfg, WorldAfter(cfg, w, es), more)
    decreases |more|
  {
    hide Apply, Legal;
    if more == [] {
      assert es + more == es;
    } else {
      RunConcat(cfg, w, es, Front(more));
      assert es + more == (es + Front(more)) + [Last(more)];
      RunSnoc(cfg, w, es + Front(more), Last(more));
    }
  }

  // ---------- The invariant ----------

  /** The two maps are mutually inverse and list only unreaped children; all others were sent SIGTERM. */
  ghost predicate TableOk(t: Table) {
    && Sound(t.k)
    && t.k.strays == 0
    && (forall i | i in t.byIfindex :: t.byIfindex[i].pid in t.byPid && t.byPid[t.byIfindex[i].pid] == i)
    && (forall p | p in t.byPid :: t.byPid[p] in t.byIfindex && t.byIfindex[t.byPid[p]].pid == p)
    && t.byPid.Keys <= t.k.children.Keys
    && (forall p | p in t.k.children && p !in t.byPid :: t.k.children[p] in t.k.termed)
  }

  /** A child runs only for an interface that is up, under an eligible name, and under its current name. */
  ghost predicate IfacesOk(cfg: Config, w: World) {
    && (forall i | i in w.ifaces :: w.ifaces[i].name != [])
    && (forall i | i in w.table.byIfindex ::
          i in w.ifaces && w.ifaces[i] == IfaceState(w.table.byIfindex[i].iface, true) && cfg(w.ifaces[i].name))
  }

  ghost predicate PhaseOk(w: World) {
    var k := w.table.k;
    match w.phase
    case Serving => k.zombies != {} ==> k.chldPending
    case Reaping => true
    case Stopping(reaps, atStart) =>
      reaps <= STOP_LIMIT && |k.children| + reaps == atStart && forall p | p in k.children :: k.children[p] in k.termed
    case Finished(reaps, atStart) =>
      && reaps <= STOP_LIMIT && |k.children| + reaps == atStart
      && (forall p | p in k.children :: k.children[p] in k.termed)
      && (reaps == STOP_LIMIT || w.table.byPid == map[])
  }

  ghost predicate Inv(cfg: Config, w: World) {
    TableOk(w.table) && IfacesOk(cfg, w) && PhaseOk(w)
  }

  lemma StartOk(t: Table, ifindex: int, name: Name, fork: int)
    requires TableOk(t) && (fork > 0 ==> CanFork(t.k, fork))
    ensures TableOk(Start(t, ifindex, name, fork))
  {
    if ifindex !in t.byIfindex && fork > 0 {
      ForkSound(t.k, fork);
    }
  }

  lemma StopOk(t: Table, ifindex: int)
    requires TableOk(t)
    ensures TableOk(Stop(t, ifindex))
    ensures Stop(t, ifindex).k.children == t.k.children
  {
    hide Sound;
    SoundFrame(t.k, Stop(t, ifindex).k);
  }

  lemma UntrackOk(t: Table, pid: int)
    requires TableOk(t) && pid in t.k.children
    ensures TableOk(Untrack(t, pid))
  {
    ReapSound(t.k, pid);
  }

  lemma ChangeInv(cfg: Config, w: World, ifindex: int, name: Name, up: bool, fork: int)
    requires Inv(cfg, w) && Legal(w, Change(ifindex, name, up, fork))
    ensures Inv(cfg, OnChange(cfg, w, ifindex, name, up, fork))
  {
    TableOkAfterChange(cfg, w, ifindex, name, up, fork);
    ChangeKeepsExits(cfg, w, ifindex, name, up, fork);
    IfacesOkAfterChange(cfg, w, ifindex, name, up, fork);
    hide TableOk, IfacesOk, OnChange;
    assert OnChange(cfg, w, ifindex, name, up, fork).phase == w.phase;
  }

  lemma IfacesOkAfterChange(cfg: Config, w: World, ifindex: int, name: Name, up: bool, fork: int)
    requires IfacesOk(cfg, w) && name != []
    ensures IfacesOk(cfg, OnChange(cfg, w, ifindex, name, up, fork))
    ensures OnChange(cfg, w, ifindex, name, up, fork).phase == w.phase
  {
    StopTracks(w.table, ifindex);
    StartTracks(w.table, ifindex, name, fork);
    StartTracks(Stop(w.table, ifindex), ifindex, name, fork);
    hide Start, Stop;
  }

  lemma StopTracks(t: Table, ifindex: int)
    ensures Stop(t, ifindex).byIfindex == t.byIfindex - {ifindex}
  {
  }

  lemma StartTracks(t: Table, ifindex: int, name: Name, fork: int)
    ensures Start(t, ifindex, name, fork).byIfindex ==
            if ifindex in t.byIfindex || fork <= 0 then t.byIfindex
            else t.byIfindex[ifindex := TrackedProcess(fork, name)]
  {
  }

  lemma TableOkAfterChange(cfg: Config, w: World, ifindex: int, name: Name, up: bool, fork: int)
    requires TableOk(w.table) && (fork > 0 ==> CanFork(w.table.k, fork))
    ensures TableOk(OnChange(cfg, w, ifindex, name, up, fork).table)
  {
    hide TableOk;
    StopOk(w.table, ifindex);
    StartOk(w.table, ifindex, name, fork);
    StartOk(Stop(w.table, ifindex), ifindex, name, fork);
  }

  lemma ChangeKeepsExits(cfg: Config, w: World, ifindex: int, name: Name, up: bool, fork: int)
    ensures var k, k' := w.table.k, OnChange(cfg, w, ifindex, name, up, fork).table.k;
            k'.zombies == k.zombies && k'.chldPending == k.chldPending
  {
  }

  lemma RemoveInv(cfg: Config, w: World, ifindex: int)
    requires Inv(cfg, w) && w.phase.Serving?
    ensures Inv(cfg, OnRemoved(w, ifindex))
  {
    hide Sound;
    StopOk(w.table, ifindex);
  }

  lemma ReapInv(cfg: Config, w: World, pid: int)
    requires Inv(cfg, w) && pid in w.table.k.children && !w.phase.Serving? && !w.phase.Finished?
    ensures TableOk(Untrack(w.table, pid)) && IfacesOk(cfg, w.(table := Untrack(w.table, pid)))
    ensures |Untrack(w.table, pid).k.children| == |w.table.k.children| - 1
  {
    UntrackOk(w.table, pid);
    ReapSound(w.table.k, pid);
    hide Sound;
  }

  lemma ShutdownInv(cfg: Config, w: World)
    requires Inv(cfg, w) && w.phase.Serving?
    ensures Inv(cfg, Apply(cfg, w, Shutdown))
  {
    hide Sound, AfterKillAll;
    KillAllChildren(w.table.k, w.table.byPid.Keys);
    KillAllKeeps(w.table.k, w.table.byPid.Keys);
  }

  lemma KillAllKeeps(k: Kernel, pids: set<int>)
    ensures var k' := AfterKillAll(k, pids);
            k'.children == k.children && k'.zombies == k.zombies && k'.chldPending == k.chldPending
  {
  }

  lemma StepInv(cfg: Config, w: World, e: Event)
    requires Inv(cfg, w) && Legal(w, e)
    ensures Inv(cfg, Apply(cfg, w, e))
  {
    match e
    case Change(ifindex, name, up, fork) => ChangeInv(cfg, w, ifindex, name, up, fork);
    case Remove(ifindex) => RemoveInv(cfg, w, ifindex);
    case Reap(pid) => ReapInv(cfg, w, pid);
    case Wait(pid) => ReapInv(cfg, w, pid);
    case Shutdown => ShutdownInv(cfg, w);
    case Exit(pids) =>
    case TakeChld =>
    case NoneLeft =>
    case Finish =>
  }

  lemma {:induction false} RunInv(cfg: Config, es: seq<Event>)
    requires LegalRun(cfg, INIT, es)
    ensures Inv(cfg, WorldAfter(cfg, INIT, es))
    decreases |es|
  {
    if es != [] {
      RunInv(cfg, Front(es));
      StepInv(cfg, WorldAfter(cfg, INIT, Front(es)), Last(es));
    }
  }
}
