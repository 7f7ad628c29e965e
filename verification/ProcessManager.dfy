/** process_manager.cpp: the child table, updated in place. */
module ProcessManager {
  import opened Processes
  import opened OperatingSystem
  import opened LinkMessages
  import opened WatcherModel
  import opened WatcherRuns

  class Manager {
    const os: Os
    var byIfindex: map<int, TrackedProcess>
    var ifindexByPid: map<int, int>

    constructor (os: Os)
      ensures this.os == os && byIfindex == map[] && ifindexByPid == map[]
    {
      this.os := os;
      byIfindex, ifindexByPid := map[], map[];
    }

    ghost function Contents(): Table
      reads this, os
    {
      Table(byIfindex, ifindexByPid, os.k)
    }

    method IsRunning(ifindex: int) returns (running: bool)
      ensures running <==> ifindex in byIfindex
    {
      running := ifindex in byIfindex;
    }

    /** `fork` is what fork() returned, 0 when it was not called. */
    method Start(ifindex: int, iface: Name) returns (ghost fork: int)
      modifies this, os`k
      ensures fork > 0 ==> CanFork(old(os.k), fork)
      ensures Contents() == WatcherModel.Start(old(Contents()), ifindex, iface, fork)
    {
      var running := IsRunning(ifindex);
      if running {
        return 0;
      }
      var pid := os.Fork();
      fork := pid;
      if pid <= 0 {
        return;
      }
      byIfindex := byIfindex[ifindex := TrackedProcess(pid, iface)];
      ifindexByPid := ifindexByPid[pid := ifindex];
    }

    method Stop(ifindex: int)
      modifies this, os`k
      ensures Contents() == WatcherModel.Stop(old(Contents()), ifindex)
    {
      if ifindex !in byIfindex {
        return;
      }
      var pid := byIfindex[ifindex].pid;
      os.Kill(pid);
      ifindexByPid := ifindexByPid - {pid};
      byIfindex := byIfindex - {ifindex};
    }

    method Forget(pid: int)
      modifies this
      ensures byIfindex ==
              if pid in old(ifindexByPid) then old(byIfindex) - {old(ifindexByPid)[pid]} else old(byIfindex)
      ensures ifindexByPid == if pid in old(ifindexByPid) then old(ifindexByPid) - {pid} else old(ifindexByPid)
    {
      if pid in ifindexByPid {
        byIfindex := byIfindex - {ifindexByPid[pid]};
        ifindexByPid := ifindexByPid - {pid};
      }
    }

    /**
     * Takes the steps `es` of the model, which end when waitpid() finds no exited child. Children may
     * exit between any two of its calls.
     */
    method ReapExited(ghost cfg: Config, ghost w: World) returns (ghost es: seq<Event>)
      requires w.table == Contents() && w.phase.Reaping? && Inv(cfg, w)
      modifies this, os`k
      ensures At(cfg, w, es, Contents(), Serving)
      ensures OnlyExits(old(os.k), os.k)
    {
      hide At, Inv, Sound, Untrack, CanExit;
      es := [];
      AtStart(cfg, w);
      while true
        invariant At(cfg, w, es, Contents(), Reaping)
        invariant OnlyExits(old(os.k), os.k)
        decreases |os.k.children|
      {
        ghost var t := Contents();
        AtSound(cfg, w, es, t, Reaping);
        var pid, exits := os.WaitNoHang();
        AtExit(cfg, w, es, t, Reaping, exits);
        es := es + [Exit(exits)];
        ghost var now := t.(k := AfterExit(t.k, exits));
        if pid <= 0 {
          AtServe(cfg, w, es, now);
          es := es + [NoneLeft];
          break;
        }
        Forget(pid);
        UntrackIs(now, pid);
        AtReap(cfg, w, es, now, pid);
        es := es + [Event.Reap(pid)];
      }
    }

    /** SIGTERM to every tracked child, in any order. */
    method KillTracked()
      modifies os`k
      ensures os.k == AfterKillAll(old(os.k), ifindexByPid.Keys)
    {
      hide AfterKillAll, AfterKill;
      var todo := ifindexByPid.Keys;
      while todo != {}
        invariant AfterKillAll(os.k, todo) == AfterKillAll(old(os.k), ifindexByPid.Keys)
        decreases todo
      {
        var pid := Pick(todo);
        KillAllStep(os.k, todo, pid);
        os.Kill(pid);
        todo := todo - {pid};
      }
      KillNone(os.k);
    }

    method StopAll(ghost cfg: Config, ghost w: World) returns (ghost es: seq<Event>, ghost reaps: nat)
      requires w.table == Contents() && w.phase.Serving? && Inv(cfg, w)
      modifies this, os`k
      ensures At(cfg, w, es, Contents(), Finished(reaps, |w.table.k.children|))
      ensures reaps <= 200 && (ifindexByPid != map[] ==> reaps == 200)
      ensures |old(os.k).children| <= 200 ==> byIfindex == map[] && ifindexByPid == map[]
    {
      hide At, Inv, AfterKillAll;
      AtStart(cfg, w);
      AtShutdown(cfg, w, [], Contents());
      es := [] + [Shutdown];
      KillTracked();
      es, reaps := WaitTracked(cfg, w, es, |w.table.k.children|);
      AtFinished(cfg, w, es, Contents(), reaps, |w.table.k.children|);
    }

    /** stopAll's bounded waiting loop. */
    method WaitTracked(ghost cfg: Config, ghost w: World, ghost before: seq<Event>, ghost atStart: nat)
      returns (ghost es: seq<Event>, ghost reaps: nat)
      requires At(cfg, w, before, Contents(), Stopping(0, atStart))
      modifies this, os`k
      ensures At(cfg, w, es, Contents(), Finished(reaps, atStart))
    {
      hide At, Inv, Sound, Untrack, CanExit;
      es := before;
      var i := 0;
      while i < STOP_LIMIT && ifindexByPid != map[]
        invariant 0 <= i <= STOP_LIMIT
        invariant At(cfg, w, es, Contents(), Stopping(i, atStart))
      {
        ghost var t := Contents();
        AtSound(cfg, w, es, t, Stopping(i, atStart));
        var pid, exits := os.WaitBlocking();
        AtExit(cfg, w, es, t, Stopping(i, atStart), exits);
        es := es + [Exit(exits)];
        ghost var now := t.(k := AfterExit(t.k, exits));
        if pid <= 0 {
          break;
        }
        Forget(pid);
        UntrackIs(now, pid);
        AtWait(cfg, w, es, now, i, atStart, pid);
        es := es + [Wait(pid)];
        i := i + 1;
      }
      AtFinish(cfg, w, es, Contents(), i, atStart);
      es := es + [Finish];
      reaps := i;
    }
  }

  /** No event of `es` is a netlink callback. */
  predicate Quiet(es: seq<Event>) {
    forall e | e in es :: !e.Change? && !e.Remove?
  }

  /** The steps `es` lead from `w` to the given table and phase, and none of them is a callback. */
  ghost predicate At(cfg: Config, w: World, es: seq<Event>, t: Table, phase: Phase) {
    && LegalRun(cfg, w, es) && WorldAfter(cfg, w, es) == w.(table := t, phase := phase)
    && Inv(cfg, w.(table := t, phase := phase))
    && Quiet(es)
  }

  lemma AtStart(cfg: Config, w: World)
    requires Inv(cfg, w)
    ensures At(cfg, w, [], w.table, w.phase)
  {
  }

  lemma AtSound(cfg: Config, w: World, es: seq<Event>, t: Table, phase: Phase)
    requires At(cfg, w, es, t, phase)
    ensures Sound(t.k)
  {
  }

  lemma AtStep(cfg: Config, w: World, es: seq<Event>, t: Table, phase: Phase, e: Event)
    requires At(cfg, w, es, t, phase)
    requires var now := w.(table := t, phase := phase);
             Legal(now, e) && !e.Change? && !e.Remove?
    ensures var next := Apply(cfg, w.(table := t, phase := phase), e);
            next.ifaces == w.ifaces ==> At(cfg, w, es + [e], next.table, next.phase)
  {
    hide Inv, Apply, Legal, LegalRun, WorldAfter;
    RunSnoc(cfg, w, es, e);
    StepInv(cfg, w.(table := t, phase := phase), e);
    assert forall d | d in es + [e] :: d in es || d == e;
  }

  lemma AtExit(cfg: Config, w: World, es: seq<Event>, t: Table, phase: Phase, exits: set<int>)
    requires At(cfg, w, es, t, phase) && CanExit(t.k, exits)
    ensures At(cfg, w, es + [Exit(exits)], t.(k := AfterExit(t.k, exits)), phase)
  {
    hide At;
    AtStep(cfg, w, es, t, phase, Exit(exits));
  }

  lemma AtReap(cfg: Config, w: World, es: seq<Event>, t: Table, pid: int)
    requires At(cfg, w, es, t, Reaping) && pid in t.k.zombies && pid in t.k.children
    ensures At(cfg, w, es + [Event.Reap(pid)], Untrack(t, pid), Reaping)
  {
    hide At, Untrack;
    AtStep(cfg, w, es, t, Reaping, Event.Reap(pid));
  }

  lemma AtServe(cfg: Config, w: World, es: seq<Event>, t: Table)
    requires At(cfg, w, es, t, Reaping) && t.k.zombies == {}
    ensures At(cfg, w, es + [NoneLeft], t, Serving)
  {
    hide At;
    AtStep(cfg, w, es, t, Reaping, NoneLeft);
  }

  lemma AtShutdown(cfg: Config, w: World, es: seq<Event>, t: Table)
    requires At(cfg, w, es, t, Serving)
    ensures At(cfg, w, es + [Shutdown], t.(k := AfterKillAll(t.k, t.byPid.Keys)), Stopping(0, |t.k.children|))
  {
    hide At, AfterKillAll;
    AtStep(cfg, w, es, t, Serving, Shutdown);
  }

  lemma AtWait(cfg: Config, w: World, es: seq<Event>, t: Table, i: nat, atStart: nat, pid: int)
    requires At(cfg, w, es, t, Stopping(i, atStart)) && i < STOP_LIMIT
    requires t.byPid != map[] && pid in t.k.zombies && pid in t.k.children
    ensures At(cfg, w, es + [Wait(pid)], Untrack(t, pid), Stopping(i + 1, atStart))
  {
    hide At, Untrack;
    AtStep(cfg, w, es, t, Stopping(i, atStart), Wait(pid));
  }

  lemma AtFinish(cfg: Config, w: World, es: seq<Event>, t: Table, i: nat, atStart: nat)
    requires At(cfg, w, es, t, Stopping(i, atStart))
    requires i >= STOP_LIMIT || t.byPid == map[] || t.k.children == map[]
    ensures At(cfg, w, es + [Finish], t, Finished(i, atStart))
  {
    hide At;
    AtStep(cfg, w, es, t, Stopping(i, atStart), Finish);
  }

  lemma AtFinished(cfg: Config, w: World, es: seq<Event>, t: Table, reaps: nat, atStart: nat)
    requires At(cfg, w, es, t, Finished(reaps, atStart))
    ensures reaps <= 200 && (t.byPid != map[] ==> reaps == 200)
    ensures atStart <= 200 ==> t.byPid == map[] && t.byIfindex == map[]
  {
    hide Inv;
    FinishedBound(cfg, w.(table := t, phase := Finished(reaps, atStart)));
  }

  lemma UntrackIs(t: Table, pid: int)
    requires pid in t.k.children
    ensures Untrack(t, pid) ==
            Table(if pid in t.byPid then t.byIfindex - {t.byPid[pid]} else t.byIfindex,
                  if pid in t.byPid then t.byPid - {pid} else t.byPid,
                  AfterReap(t.k, pid))
  {
  }
}
