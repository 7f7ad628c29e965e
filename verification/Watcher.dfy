/** watcher.cpp and watcher_iface_state.cpp: the event loop and the per-interface state machine. */
module Watcher {
  import opened Options
  import opened Bytes
  import opened Sockets
  import opened Netlink
  import opened Processes
  import opened OperatingSystem
  import opened LinkMessages
  import opened WatcherModel
  import opened WatcherRuns
  import opened ProcessManager

  /** What one return of poll() reports: EINTR, or the readable descriptors (the netlink one with its batches). */
  datatype Wakeup = Interrupted | Ready(batches: Option<seq<seq<byte>>>, signal: bool)

  function CallsOfWakeup(w: Wakeup): seq<LinkCall> {
    if w.Ready? && w.batches.Some? then Calls(Stream(UntilEmpty(w.batches.value))) else []
  }

  /** poll() found the signalfd readable. */
  predicate Signalled(w: Wakeup) {
    w.Ready? && w.signal
  }

  /** The callbacks of a list of wakeups, in order. */
  function CallsOfWakeups(ws: seq<Wakeup>): seq<LinkCall> {
    if ws == [] then [] else CallsOfWakeups(ws[..|ws| - 1]) + CallsOfWakeup(ws[|ws| - 1])
  }

  ghost predicate GoodWakeup(w: Wakeup) {
    w.Ready? && w.batches.Some? ==> forall b | b in w.batches.value :: GoodBatch(b)
  }

  /** The callbacks recorded in a run. */
  function LinksOf(es: seq<Event>): seq<LinkCall> {
    if es == [] then []
    else LinksOf(Front(es)) +
         match Last(es)
         case Change(i, name, up, _) => [Changed(i, name, up)]
         case Remove(i) => [Removed(i)]
         case _ => []
  }

  predicate IsCallback(e: Event) {
    e.Change? || e.Remove?
  }

  /** `after` is `before` with more steps: only callbacks, or none. */
  predicate Extends(before: seq<Event>, after: seq<Event>, callbacks: bool) {
    before <= after && forall i :: |before| <= i < |after| ==> IsCallback(after[i]) == callbacks
  }

  lemma ExtendsNothing(es: seq<Event>)
    ensures Extends(es, es, false)
  {
  }

  lemma ExtendsMore(a: seq<Event>, b: seq<Event>, c: seq<Event>, callbacks: bool)
    requires Extends(a, b, callbacks) && Extends(b, c, callbacks)
    ensures Extends(a, c, callbacks)
  {
  }

  lemma {:induction false} LinksConcat(a: seq<Event>, b: seq<Event>)
    ensures LinksOf(a + b) == LinksOf(a) + LinksOf(b)
    decreases |b|
  {
    if b == [] {
      assert a + b == a;
    } else {
      LinksConcat(a, Front(b));
      assert Front(a + b) == a + Front(b);
    }
  }

  lemma {:induction false} QuietLinks(es: seq<Event>)
    requires Quiet(es)
    ensures LinksOf(es) == []
    decreases |es|
  {
    if es != [] {
      QuietLinks(Front(es));
      assert Last(es) in es;
    }
  }

  /** The last callback about one interface. */
  function LastCall(calls: seq<LinkCall>, i: int): Link {
    if calls == [] then Absent
    else
      match calls[|calls| - 1]
      case Changed(j, name, up) => if j == i then Known(name, up) else LastCall(calls[..|calls| - 1], i)
      case Removed(j) => if j == i then Absent else LastCall(calls[..|calls| - 1], i)
  }

  lemma {:induction false} LastLinkIsLastCall(es: seq<Event>, i: int)
    ensures LastLink(es, i) == LastCall(LinksOf(es), i)
    decreases |es|
  {
    if es != [] {
      LastLinkIsLastCall(Front(es), i);
      var before, all := LinksOf(Front(es)), LinksOf(es);
      if |all| > |before| {
        assert all[..|all| - 1] == before;
      } else {
        assert all == before;
      }
    }
  }

  lemma NothingArrives()
    ensures Calls(Stream(UntilEmpty([]))) == []
  {
  }

  /** The message says something of interface `i`. */
  predicate Concerns(d: Described, i: int) {
    match d
    case Other(_) => false
    case DelLink(ifindex, _) => ifindex == i
    case NewLink(ifindex, _, _, name, _) => ifindex == i && name.Some? && name.value != []
  }

  predicate LastAbout(ds: seq<Described>, i: int, k: int) {
    0 <= k < |ds| && Concerns(ds[k], i) && forall j :: k < j < |ds| ==> !Concerns(ds[j], i)
  }

  lemma {:induction false} EventsSnoc(ds: seq<Described>, d: Described)
    ensures Events(ds + [d]) == Events(ds) + EventOf(d)
  {
    if ds == [] {
      assert ds + [d] == [d] && [d][1..] == [];
    } else {
      hide EventOf;
      EventsSnoc(ds[1..], d);
      TailOfSum(ds, [d]);
      SumsAssociate(EventOf(ds[0]), Events(ds[1..]), EventOf(d));
    }
  }

  lemma LastOfSum(calls: seq<LinkCall>, d: Described, i: int)
    ensures LastCall(calls + EventOf(d), i) ==
            if !Concerns(d, i) then LastCall(calls, i)
            else if d.DelLink? then Absent else Known(d.name.value, MeansUp(d.flags))
  {
    var all := calls + EventOf(d);
    if EventOf(d) == [] {
      assert all == calls;
    } else {
      assert all[..|all| - 1] == calls;
    }
  }

  lemma {:induction false} LastEvent(before: seq<LinkCall>, ds: seq<Described>, i: int, k: int)
    requires LastAbout(ds, i, k)
    ensures LastCall(before + Events(ds), i) ==
            if ds[k].DelLink? then Absent else Known(ds[k].name.value, MeansUp(ds[k].flags))
    decreases |ds|
  {
    var n := |ds| - 1;
    var front := ds[..n];
    assert ds == front + [ds[n]];
    EventsSnoc(front, ds[n]);
    assert before + Events(ds) == before + Events(front) + EventOf(ds[n]);
    LastOfSum(before + Events(front), ds[n], i);
    if k < n {
      LastEvent(before, front, i, k);
    }
  }

  /** handleMessage never reports an empty name. */
  lemma {:induction false} CallsAreNamed(ms: seq<Message>)
    ensures forall c | c in Calls(ms) :: c.Changed? ==> c.name != []
  {
    if ms != [] {
      CallsAreNamed(ms[1..]);
      hide Attrs, IfName;
    }
  }

  class Watcher {
    const cfg: Config
    const os: Os
    const processes: Manager
    var ifaces: map<int, IfaceState>
    var shouldExit: bool
    ghost var trace: seq<Event> // every step taken so far
    ghost var phase: Phase

    constructor (cfg: Config, os: Os)
      requires os.k == BOOT
      ensures Valid() && fresh(processes) && this.os == os && this.cfg == cfg
      ensures trace == [] && phase.Serving? && !shouldExit
    {
      this.cfg, this.os := cfg, os;
      processes := new Manager(os);
      ifaces, shouldExit := map[], false;
      trace, phase := [], Serving;
    }

    ghost function Current(): World
      reads this, processes, processes.os
    {
      World(ifaces, processes.Contents(), phase)
    }

    /** The object's state is the one the model reaches by the recorded steps. */
    ghost predicate Valid()
      reads this, processes, os
    {
      processes.os == os && LegalRun(cfg, INIT, trace) && WorldAfter(cfg, INIT, trace) == Current()
    }

    /** The interface table holds, for each interface, just the last callback about it. */
    lemma KnowsLastCall(i: int)
      requires Valid()
      ensures LinkIn(Current(), i) == LastCall(LinksOf(trace), i)
    {
      IfacesAreLastLinks(cfg, trace, i);
      LastLinkIsLastCall(trace, i);
    }

    /** fork() was called once for each eligible up-episode the trace began, and not otherwise. */
    lemma ForkedPerEpisode()
      requires Valid()
      ensures os.k.attempts == Beginnings(cfg, trace)
    {
      ForkPerEpisode(cfg, trace);
    }

    /** After the last callback about it was a removal, an interface is unknown and has no child. */
    lemma Gone(i: int)
      requires Valid() && LastCall(LinksOf(trace), i) == Absent
      ensures i !in ifaces && i !in processes.byIfindex
    {
      KnowsLastCall(i);
      RunInv(cfg, trace);
      hide LegalRun, WorldAfter, Sound, TableOk;
    }

    /**
     * Behind a wakeup that brought these messages, the last one about `i` decides: RTM_DELLINK leaves
     * neither state nor child, RTM_NEWLINK its name and whether it is up.
     */
    lemma AfterWakeup(
      before: seq<LinkCall>, ds: seq<Described>, ms: seq<Message>, batches: seq<seq<byte>>, signal: bool, i: int)
      requires Valid() && LinksOf(trace) == before + CallsOfWakeup(Ready(Some(batches), signal))
      requires DescribesAll(ds, ms) && Delivers(batches, ms)
      ensures forall k | LastAbout(ds, i, k) :: ds[k].DelLink? ==> i !in ifaces && i !in processes.byIfindex
      ensures forall k | LastAbout(ds, i, k) :: ds[k].NewLink? ==>
                i in ifaces && ifaces[i] == IfaceState(ds[k].name.value, MeansUp(ds[k].flags))
    {
      hide LegalRun, WorldAfter, DescribesAll, Delivers, Calls, Stream, LinksOf;
      LinkStreamRoundTrip(ds, ms, batches, []);
      assert batches + [] == batches && Calls(Stream(UntilEmpty([]))) == [] by {
        NothingArrives();
      }
      assert Events(ds) + [] == Events(ds);
      assert LinksOf(trace) == before + Events(ds);
      KnowsLastCall(i);
      forall k | LastAbout(ds, i, k)
        ensures LastCall(before + Events(ds), i) ==
                if ds[k].DelLink? then Absent else Known(ds[k].name.value, MeansUp(ds[k].flags))
      {
        LastEvent(before, ds, i, k);
      }
      if LastCall(LinksOf(trace), i) == Absent {
        Gone(i);
      }
    }

    method StartIfEligible(ifindex: int, name: Name) returns (ghost fork: int)
      modifies processes, processes.os`k
      ensures fork > 0 ==> CanFork(old(processes.os.k), fork)
      ensures processes.Contents() == WatcherModel.StartIfEligible(cfg, old(processes.Contents()), ifindex, name, fork)
    {
      if !cfg(name) {
        return 0;
      }
      fork := processes.Start(ifindex, name);
    }

    method OnChange(ifindex: int, name: Name, isUp: bool)
      requires Valid() && phase.Serving? && name != []
      modifies this`ifaces, this`trace, processes, os`k
      ensures Valid()
      ensures exists fork :: trace == old(trace) + [Change(ifindex, name, isUp, fork)]
      ensures var starts := isUp && cfg(name) && LinkIn(old(Current()), ifindex) != Known(name, true);
              os.k.attempts == old(os.k.attempts) + if starts then 1 else 0
    {
      ghost var w := Current();
      ghost var fork := 0;
      RunInv(cfg, trace);
      hide Inv, LegalRun, WorldAfter, Sound;
      var state := if ifindex in ifaces then ifaces[ifindex] else IfaceState([], false);
      var renamed := state.name != [] && state.name != name;
      var wasUp := state.wasUp;
      ifaces := ifaces[ifindex := IfaceState(name, isUp)];
      if renamed && wasUp {
        processes.Stop(ifindex);
        if isUp {
          StopKeepsChildren(w.table, ifindex);
          fork := StartIfEligible(ifindex, name);
        }
      } else if isUp == wasUp {
      } else if isUp {
        fork := StartIfEligible(ifindex, name);
      } else {
        processes.Stop(ifindex);
      }
      RunSnoc(cfg, INIT, trace, Change(ifindex, name, isUp, fork));
      AttemptStep(cfg, w, Change(ifindex, name, isUp, fork));
      trace := trace + [Change(ifindex, name, isUp, fork)];
    }

    method OnRemoved(ifindex: int)
      requires Valid() && phase.Serving?
      modifies this`ifaces, this`trace, processes, os`k
      ensures Valid()
      ensures trace == old(trace) + [Remove(ifindex)]
    {
      hide LegalRun, WorldAfter;
      ghost var before := trace;
      RunSnoc(cfg, INIT, trace, Remove(ifindex));
      trace := trace + [Remove(ifindex)];
      if ifindex !in ifaces {
        return;
      }
      if ifaces[ifindex].wasUp {
        processes.Stop(ifindex);
      }
      ifaces := ifaces - {ifindex};
    }

    method Callback(call: LinkCall)
      requires Valid() && phase.Serving? && (call.Changed? ==> call.name != [])
      modifies this`ifaces, this`trace, processes, os`k
      ensures Valid()
      ensures LinksOf(trace) == LinksOf(old(trace)) + [call] && Extends(old(trace), trace, true)
    {
      ghost var before := trace;
      match call {
        case Changed(ifindex, name, isUp) => OnChange(ifindex, name, isUp);
        case Removed(ifindex) => OnRemoved(ifindex);
      }
      assert Front(trace) == before;
    }

    /** Runs the callbacks of one processPendingMessages call. */
    method Deliver(calls: seq<LinkCall>)
      requires Valid() && phase.Serving? && forall c | c in calls :: c.Changed? ==> c.name != []
      modifies this`ifaces, this`trace, processes, os`k
      ensures Valid()
      ensures LinksOf(trace) == LinksOf(old(trace)) + calls && Extends(old(trace), trace, true)
    {
      hide LinksOf, LegalRun, WorldAfter;
      ghost var before := LinksOf(trace);
      assert before == before + calls[..0];
      for i := 0 to |calls|
        invariant Valid()
        invariant LinksOf(trace) == before + calls[..i] && Extends(old(trace), trace, true)
      {
        Callback(calls[i]);
        assert before + calls[..i + 1] == (before + calls[..i]) + [calls[i]];
      }
    }

    /** Records the steps `es` of the process manager or the kernel, which lead to `next`. */
    ghost method Extend(w: World, es: seq<Event>, next: Phase)
      requires processes.os == os && LegalRun(cfg, INIT, trace) && WorldAfter(cfg, INIT, trace) == w
      requires w.ifaces == ifaces && At(cfg, w, es, processes.Contents(), next)
      modifies this`trace, this`phase
      ensures Valid() && trace == old(trace) + es && phase == next
      ensures LinksOf(trace) == LinksOf(old(trace)) && Extends(old(trace), trace, false)
    {
      RunConcat(cfg, INIT, trace, es);
      LinksConcat(trace, es);
      QuietLinks(es);
      phase := next;
      trace := trace + es;
    }

    /**
     * Reads signals until none is pending: then every exited child has been reaped, and the exit
     * flag is set exactly when it was or a SIGTERM or SIGINT was read.
     */
    method HandleSignals()
      requires Valid() && phase.Serving?
      modifies this`shouldExit, this`trace, this`phase, processes, os
      ensures Valid() && phase.Serving?
      ensures !os.k.chldPending && os.k.zombies == {}
      ensures os.termsComing <= old(os.termsComing)
      ensures shouldExit <==> old(shouldExit) || os.termsComing < old(os.termsComing)
      ensures LinksOf(trace) == LinksOf(old(trace)) && Extends(old(trace), trace, false)
    {
      hide LegalRun, WorldAfter, Inv, Sound, LinksOf, CanExit, At, Extends;
      ghost var before := trace;
      ExtendsNothing(trace);
      while true
        invariant Valid() && phase.Serving?
        invariant LinksOf(trace) == LinksOf(old(trace)) && Extends(old(trace), trace, false)
        invariant os.termsComing <= old(os.termsComing)
        invariant shouldExit <==> old(shouldExit) || os.termsComing < old(os.termsComing)
        decreases os.termsComing, Running(os.k), if os.k.chldPending then 1 else 0
      {
        ghost var w, soFar := Current(), trace;
        RunInv(cfg, trace);
        var sig, exits := os.ReadSignal();
        OneExit(cfg, w, exits);
        if sig == Chld {
          OneChld(cfg, w, exits);
          Extend(w, [Exit(exits), TakeChld], Reaping);
          RunInv(cfg, trace);
          ghost var reaping, taken := Current(), trace;
          ghost var es := processes.ReapExited(cfg, reaping);
          Extend(reaping, es, Serving);
          ExtendsMore(soFar, taken, trace, false);
          ExtendsMore(before, soFar, trace, false);
        } else {
          Extend(w, [Exit(exits)], Serving);
          ExtendsMore(before, soFar, trace, false);
          if sig == NoSignal {
            NoneOverlooked(cfg, trace);
            break;
          }
          shouldExit := true;
        }
      }
    }

    method HandleNetlink(batches: seq<seq<byte>>)
      requires Valid() && phase.Serving? && forall b | b in batches :: GoodBatch(b)
      modifies this`ifaces, this`trace, processes, os`k
      ensures Valid()
      ensures LinksOf(trace) == LinksOf(old(trace)) + Calls(Stream(UntilEmpty(batches)))
      ensures Extends(old(trace), trace, true)
    {
      hide LinksOf, LegalRun, WorldAfter, Calls, Stream, GoodBatch;
      var sock := new DatagramSocket(batches);
      var calls := ProcessPendingMessages(sock);
      CallsAreNamed(Stream(UntilEmpty(batches)));
      Deliver(calls);
    }

    /** The body of the poll loop. */
    method HandleWakeup(w: Wakeup)
      requires Valid() && phase.Serving? && GoodWakeup(w)
      modifies this`ifaces, this`shouldExit, this`trace, this`phase, processes, os
      ensures Valid() && phase.Serving?
      ensures LinksOf(trace) == LinksOf(old(trace)) + CallsOfWakeup(w)
      ensures exists mid :: Extends(old(trace), mid, true) && Extends(mid, trace, false) // callbacks, then signals
      ensures os.termsComing <= old(os.termsComing)
      ensures shouldExit <==> old(shouldExit) || os.termsComing < old(os.termsComing)
      ensures if Signalled(w) then !os.k.chldPending && os.k.zombies == {} else shouldExit == old(shouldExit)
    {
      hide LinksOf, LegalRun, WorldAfter, Calls, Stream, GoodBatch;
      ghost var mid := trace;
      if w.Ready? {
        if w.batches.Some? {
          HandleNetlink(w.batches.value);
        }
        mid := trace;
        if w.signal {
          HandleSignals();
        }
      }
      assert Extends(old(trace), mid, true) && Extends(mid, trace, false);
    }

    /**
     * The poll loop over the wakeups poll() reports; it then fails, unless a SIGTERM or SIGINT read
     * at the last wakeup handled ended the loop before.
     */
    method Poll(wakeups: seq<Wakeup>) returns (ghost handled: nat)
      requires Valid() && phase.Serving? && !shouldExit && forall w | w in wakeups :: GoodWakeup(w)
      modifies this`ifaces, this`shouldExit, this`trace, this`phase, processes, os
      ensures Valid() && phase.Serving?
      ensures handled <= |wakeups| && (handled < |wakeups| ==> shouldExit)
      ensures os.termsComing <= old(os.termsComing) && (shouldExit <==> os.termsComing < old(os.termsComing))
      ensures shouldExit ==> handled > 0 && Signalled(wakeups[handled - 1])
      ensures handled > 0 && Signalled(wakeups[handled - 1]) ==> !os.k.chldPending && os.k.zombies == {}
      ensures LinksOf(trace) == LinksOf(old(trace)) + CallsOfWakeups(wakeups[..handled])
    {
      hide LinksOf, LegalRun, WorldAfter, CallsOfWakeup, GoodWakeup, Signalled;
      var i := 0;
      ghost var before := LinksOf(trace);
      while !shouldExit && i < |wakeups|
        invariant 0 <= i <= |wakeups|
        invariant Valid() && phase.Serving?
        invariant os.termsComing <= old(os.termsComing) && (shouldExit <==> os.termsComing < old(os.termsComing))
        invariant shouldExit ==> i > 0 && Signalled(wakeups[i - 1])
        invariant i > 0 && Signalled(wakeups[i - 1]) ==> !os.k.chldPending && os.k.zombies == {}
        invariant LinksOf(trace) == before + CallsOfWakeups(wakeups[..i])
      {
        HandleWakeup(wakeups[i]);
        assert wakeups[..i + 1][..i] == wakeups[..i];
        i := i + 1;
      }
      handled := i;
    }

    /** run(): serve until told to stop, or until poll() fails, then stop every child. */
    method Run(wakeups: seq<Wakeup>) returns (ghost handled: nat)
      requires Valid() && trace == [] && phase.Serving? && !shouldExit
      requires forall w | w in wakeups :: GoodWakeup(w)
      modifies this`ifaces, this`shouldExit, this`trace, this`phase, processes, os
      ensures Valid() && phase.Finished?
      ensures handled <= |wakeups| && (handled < |wakeups| ==> shouldExit)
      ensures os.termsComing <= old(os.termsComing) && (shouldExit <==> os.termsComing < old(os.termsComing))
      ensures shouldExit ==> handled > 0 && Signalled(wakeups[handled - 1])
      ensures LinksOf(trace) == CallsOfWakeups(wakeups[..handled])
      ensures os.k.strays == 0 && os.k.signals == |os.k.termed| && os.k.attempts == Beginnings(cfg, trace)
      ensures forall c: nat | c < os.k.forks :: c in os.k.termed || c in os.k.reaped
      ensures phase.atStart <= 200 ==> processes.byIfindex == map[] && processes.ifindexByPid == map[]
    {
      hide LinksOf, LegalRun, WorldAfter, CallsOfWakeups, Inv, Sound, At, GoodWakeup, Beginnings, TermsOk;
      NoLinks();
      handled := Poll(wakeups);
      RunInv(cfg, trace);
      ghost var w := Current();
      ghost var es, reaps := processes.StopAll(cfg, w);
      Extend(w, es, Finished(reaps, |w.table.k.children|));
      ShutdownBound(cfg, trace);
      NoStrays(cfg, trace);
      OneTermEach(cfg, trace);
      ForkPerEpisode(cfg, trace);
      forall c: nat | c < os.k.forks ensures c in os.k.termed || c in os.k.reaped {
        NoOrphans(cfg, trace, c);
      }
    }
  }

  /** Back at poll() with no SIGCHLD pending, no child's exit is left unreaped. */
  lemma NoneOverlooked(cfg: Config, es: seq<Event>)
    requires LegalRun(cfg, INIT, es) && WorldAfter(cfg, INIT, es).phase.Serving?
    requires !WorldAfter(cfg, INIT, es).table.k.chldPending
    ensures WorldAfter(cfg, INIT, es).table.k.zombies == {}
  {
    RunInv(cfg, es);
  }

  lemma NoLinks()
    ensures LinksOf([]) == []
  {
  }

  lemma NoStrays(cfg: Config, es: seq<Event>)
    requires LegalRun(cfg, INIT, es)
    ensures WorldAfter(cfg, INIT, es).table.k.strays == 0
  {
    RunInv(cfg, es);
  }

  lemma StopKeepsChildren(t: Table, ifindex: int)
    ensures Stop(t, ifindex).k.children == t.k.children
  {
  }

  lemma OneExit(cfg: Config, w: World, exits: set<int>)
    requires Inv(cfg, w) && CanExit(w.table.k, exits)
    ensures At(cfg, w, [Exit(exits)], w.table.(k := AfterExit(w.table.k, exits)), w.phase)
  {
    AtStart(cfg, w);
    AtExit(cfg, w, [], w.table, w.phase, exits);
    assert [] + [Exit(exits)] == [Exit(exits)];
  }

  lemma OneChld(cfg: Config, w: World, exits: set<int>)
    requires Inv(cfg, w) && CanExit(w.table.k, exits) && w.phase.Serving? && AfterExit(w.table.k, exits).chldPending
    ensures At(cfg, w, [Exit(exits), TakeChld],
               w.table.(k := AfterExit(w.table.k, exits).(chldPending := false)), Reaping)
  {
    OneExit(cfg, w, exits);
    AtStep(cfg, w, [Exit(exits)], w.table.(k := AfterExit(w.table.k, exits)), w.phase, TakeChld);
    assert [Exit(exits)] + [TakeChld] == [Exit(exits), TakeChld];
  }
}
