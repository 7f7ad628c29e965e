/** PingMonitor: construction, ticks and the cached tray (ping_monitor.cpp, _tick, _status_text, _icon). */
module PingMonitor {
  import opened ProtoTrack
  import opened ProtoRuns
  import opened Display

  /** A control character no glyph contains. */
  const SENTINEL_GLYPH := ['\U{0001}']
  const SENTINEL_SNAPSHOT := Snapshot(-1, false, false, -1, false, false)

  datatype Target = Target(configured: bool, ip: string, mode: Mode, fixedIp: string)

  /** Painting is any function of severity and glyph; the interface tag is fixed. */
  class PingMonitor<Icon(0)> {
    const caption: string
    const paint: IconKey -> Icon
    const fds: Descriptors
    const v4: Proto
    const v6: Proto
    var currentSeverity: Severity
    var currentGlyph: string
    var iconCache: map<IconKey, Icon>
    var currentTooltip: string
    var lastTickState: Snapshot

    // the tray
    var trayIcon: Icon
    var trayTooltip: string
    var menuText: string

    ghost var start4: Track // the tracks before the first tick
    ghost var start6: Track
    ghost var ins4: seq<Input>
    ghost var ins6: seq<Input>
    ghost var painted: seq<IconKey> // every icon painted
    ghost var iconsSet: nat         // how often the tray was given an icon,
    ghost var tooltipsSet: nat      // a tooltip,
    ghost var menusSet: nat         // and a menu text

    ghost function Now(): Rendering
      reads v4, v6
    {
      Render(caption, v4.View(), v6.View())
    }

    /** The tray shows an uncached render of the current tracks. */
    ghost predicate Coherent()
      reads this, v4, v6
    {
      Shows(Now())
    }

    ghost predicate Shows(r: Rendering)
      reads this`trayIcon, this`trayTooltip, this`menuText, this`iconCache
      reads this`currentSeverity, this`currentGlyph, this`currentTooltip
    {
      && trayIcon == paint(IconOf(r)) && IconOf(r) in iconCache
      && trayTooltip == r.text && menuText == r.text
      && currentSeverity == r.colour && currentGlyph == r.glyph && currentTooltip == r.text
    }

    /** Each cached icon is right, was painted exactly once, and is one of nine. */
    ghost predicate CacheOk()
      reads this`iconCache, this`painted
    {
      && (forall key | key in iconCache :: iconCache[key] == paint(key))
      && (forall i, j :: 0 <= i < j < |painted| ==> painted[i] != painted[j])
      && (forall key :: key in painted <==> key in iconCache)
      && iconCache.Keys <= KEYS
    }

    /** An icon was painted when it was first shown, and never again. */
    ghost predicate PaintedOk()
      reads this`start4, this`start6, this`ins4, this`ins6, this`painted
    {
      |ins4| == |ins6| && painted == Firsts(KeysShown(start4, start6, ins4, ins6))
    }

    /** The tracks are those of the model after the recorded inputs. */
    ghost predicate TracksOk()
      reads this`start4, this`start6, this`ins4, this`ins6, v4, v6
    {
      && v4 != v6 && v4.fds == fds && v6.fds == fds
      && v4.View() == RunTrack(start4, ins4) && v6.View() == RunTrack(start6, ins6)
      && IsFresh(start4) && start4.configured == v4.configured && start4.mode == v4.mode
      && IsFresh(start6) && start6.configured == v6.configured && start6.mode == v6.mode
      && |ins4| == |ins6|
    }

    /** The open descriptors are the two sockets, and each reopening is accounted for. */
    ghost predicate SocketsOk()
      reads this`start4, this`start6, this`ins4, this`ins6, v4, v6, fds
    {
      && fds.open == Holds(v4.sock) + Holds(v6.sock) && Holds(v4.sock) !! Holds(v6.sock)
      && fds.opens == (if v4.configured then 1 else 0) + (if v6.configured then 1 else 0)
                      + Count(Effects(start4, ins4), (e: Effect) => e.reopened)
                      + Count(Effects(start6, ins6), (e: Effect) => e.reopened)
    }

    /** Every address check, route lookup and ping of the two protocols, and its answer, is accounted for. */
    ghost predicate CallsOk()
      reads this`start4, this`start6, this`ins4, this`ins6, v4, v6
    {
      Accounted(v4, start4, ins4) && Accounted(v6, start6, ins6)
    }

    ghost predicate SnapshotOk()
      reads this, v4, v6
    {
      lastTickState == if ins4 == [] then SENTINEL_SNAPSHOT else SnapshotOf(v4.View(), v6.View())
    }

    ghost predicate Valid()
      reads this, v4, v6, fds
    {
      TracksOk() && SocketsOk() && CallsOk() && CacheOk() && PaintedOk() && SnapshotOk() && Coherent()
    }

    method Paint(key: IconKey) returns (icon: Icon)
      modifies this`painted
      ensures icon == paint(key) && painted == old(painted) + [key]
    {
      icon := paint(key);
      painted := painted + [key];
    }

    method IconFor(worst: Severity, glyph: string) returns (icon: Icon)
      requires CacheOk() && (worst, glyph) in KEYS
      modifies this`iconCache, this`painted
      ensures CacheOk() && icon == paint((worst, glyph))
      ensures iconCache == old(iconCache)[(worst, glyph) := icon]
      ensures painted == AddNew(old(painted), (worst, glyph))
    {
      var key := (worst, glyph);
      if key in iconCache {
        return iconCache[key];
      }
      icon := Paint(key);
      iconCache := iconCache[key := icon];
    }

    method ShowIcon(icon: Icon)
      modifies this`trayIcon, this`iconsSet
      ensures trayIcon == icon && iconsSet == old(iconsSet) + 1
    {
      trayIcon, iconsSet := icon, iconsSet + 1;
    }

    method SetIcon(worst: Severity, glyph: string)
      requires CacheOk() && (worst, glyph) in KEYS
      requires worst == currentSeverity && glyph == currentGlyph ==>
                 trayIcon == paint((worst, glyph)) && (worst, glyph) in iconCache
      modifies this`currentSeverity, this`currentGlyph, this`trayIcon, this`iconsSet, this`iconCache, this`painted
      ensures CacheOk() && (worst, glyph) in iconCache
      ensures currentSeverity == worst && currentGlyph == glyph && trayIcon == paint((worst, glyph))
      ensures iconsSet == old(iconsSet) + Once((worst, glyph) != old((currentSeverity, currentGlyph)))
      ensures painted == AddNew(old(painted), (worst, glyph))
    {
      if worst == currentSeverity && glyph == currentGlyph {
        return;
      }
      currentSeverity, currentGlyph := worst, glyph;
      var icon := IconFor(worst, glyph);
      ShowIcon(icon);
    }

    method ShowTooltip(text: string)
      modifies this`trayTooltip, this`tooltipsSet
      ensures trayTooltip == text && tooltipsSet == old(tooltipsSet) + 1
    {
      trayTooltip, tooltipsSet := text, tooltipsSet + 1;
    }

    method ShowMenu(text: string)
      modifies this`menuText, this`menusSet
      ensures menuText == text && menusSet == old(menusSet) + 1
    {
      menuText, menusSet := text, menusSet + 1;
    }

    method ApplyStatus(status: string)
      requires status == currentTooltip ==> trayTooltip == status
      modifies this`menuText, this`menusSet, this`currentTooltip, this`trayTooltip, this`tooltipsSet
      ensures menuText == status && currentTooltip == status && trayTooltip == status
      ensures tooltipsSet == old(tooltipsSet) + Once(status != old(currentTooltip))
      ensures menusSet == old(menusSet) + 1
    {
      ShowMenu(status);
      if status != currentTooltip {
        currentTooltip := status;
        ShowTooltip(status);
      }
    }

    /** What the two remembered values say about the tray, before the first render and after. */
    ghost predicate Remembered()
      reads this
    {
      && (currentGlyph == SENTINEL_GLYPH ||
          (trayIcon == paint((currentSeverity, currentGlyph)) && (currentSeverity, currentGlyph) in iconCache))
      && (currentTooltip == "" || trayTooltip == currentTooltip)
    }

    method RenderTray()
      requires CacheOk() && Remembered() && TrackOk(v4.View()) && TrackOk(v6.View())
      modifies this`currentSeverity, this`currentGlyph, this`trayIcon, this`iconsSet, this`iconCache, this`painted,
               this`menuText, this`menusSet, this`currentTooltip, this`trayTooltip, this`tooltipsSet
      ensures CacheOk() && Coherent()
      ensures painted == AddNew(old(painted), IconOf(Now()))
      ensures iconsSet == old(iconsSet) + Once(IconOf(Now()) != old((currentSeverity, currentGlyph)))
      ensures tooltipsSet == old(tooltipsSet) + Once(Now().text != old(currentTooltip))
      ensures menusSet == old(menusSet) + 1
    {
      hide StateOf, SeverityOf, GlyphFor, WorstSeverityOf, StatusTextFor, AddNew, KEYS, TrackOk, CacheOk, Once;
      var v4State, v6State := StateOf(v4.View()), StateOf(v6.View());
      var v4Severity, v6Severity := SeverityOf(v4.View()), SeverityOf(v6.View());
      var glyph := GlyphFor(v4State, v6State, v4Severity, v6Severity);
      var colour := WorstSeverityOf(v4State, v6State, v4Severity, v6Severity);
      OnlyKeysShown(caption, v4.View(), v6.View());
      KeysHaveNoSentinel();
      SetIcon(colour, glyph);
      TextNotEmpty(caption, v4.View(), v6.View());
      ApplyStatus(StatusTextFor(caption, v4.View(), v6.View()));
    }

    /** The targets are already resolved and the overrides parsed; any socket() call may fail. */
    constructor (caption: string, paint: IconKey -> Icon, target4: Target, target6: Target)
      ensures Valid() && ins4 == [] && ins6 == []
      ensures this.caption == caption && this.paint == paint
      ensures v4.configured == target4.configured && v4.targetIp == target4.ip && v4.mode == target4.mode
      ensures v6.configured == target6.configured && v6.targetIp == target6.ip && v6.mode == target6.mode
      ensures v4.gatewayIp == (if v4.mode == Fixed then target4.fixedIp else "") && start4 == v4.View()
      ensures v6.gatewayIp == (if v6.mode == Fixed then target6.fixedIp else "") && start6 == v6.View()
    {
      this.caption, this.paint := caption, paint;
      var table := new Descriptors();
      var four := new Proto(table, target4.configured, target4.ip, target4.mode, target4.fixedIp);
      var six := new Proto(table, target6.configured, target6.ip, target6.mode, target6.fixedIp);
      fds, v4, v6 := table, four, six;
      currentSeverity, currentGlyph := Yellow, SENTINEL_GLYPH;
      iconCache, currentTooltip, lastTickState := map[], "", SENTINEL_SNAPSHOT;
      trayTooltip, menuText := caption, caption + ": starting...";
      ins4, ins6, painted, iconsSet, tooltipsSet, menusSet := [], [], [], 0, 0, 0;
      new;
      FreshGateway(target4.configured, target4.mode, target4.fixedIp);
      FreshGateway(target6.configured, target6.mode, target6.fixedIp);
      hide FreshTrack, CacheOk, Coherent, TrackOk, TracksOk, SocketsOk, CallsOk, PaintedOk, SnapshotOk;
      assert CacheOk() by {
        NoIcons();
      }
      ShowAndOpen(target4.fixedIp, target6.fixedIp);
    }

    lemma NoIcons()
      requires iconCache == map[] && painted == []
      ensures CacheOk()
    {
    }

    /** setupTray: the menu and tooltip have their first texts already. */
    method SetupTray()
      requires CacheOk() && painted == [] && currentGlyph == SENTINEL_GLYPH && currentTooltip == ""
      requires TrackOk(v4.View()) && TrackOk(v6.View())
      modifies this`currentSeverity, this`currentGlyph, this`trayIcon, this`iconsSet, this`iconCache, this`painted,
               this`menuText, this`menusSet, this`currentTooltip, this`trayTooltip, this`tooltipsSet
      ensures CacheOk() && Coherent() && painted == [IconOf(Now())]
    {
      hide Render, KEYS, TrackOk, CacheOk, Coherent, Remembered;
      NothingShown();
      RenderTray();
    }

    /** The constructor's calls. */
    method ShowAndOpen(ghost ip4: string, ghost ip6: string)
      requires v4 != v6 && v4.fds == fds && v6.fds == fds && fds.open == {} && fds.opens == 0
      requires v4.log == v6.log == []
      requires v4.View() == FreshTrack(v4.configured, v4.mode, ip4, -1)
      requires v6.View() == FreshTrack(v6.configured, v6.mode, ip6, -1)
      requires CacheOk() && painted == [] && currentGlyph == SENTINEL_GLYPH && currentTooltip == ""
      requires ins4 == [] && ins6 == [] && lastTickState == SENTINEL_SNAPSHOT
      modifies this, v4`sock, v6`sock, fds
      ensures Valid() && ins4 == [] && ins6 == []
      ensures v4.gatewayIp == old(v4.gatewayIp) && v6.gatewayIp == old(v6.gatewayIp)
      ensures start4 == v4.View() && start6 == v6.View()
    {
      hide FreshTrack, CacheOk, Coherent, TrackOk, TracksOk, SocketsOk, CallsOk, PaintedOk, SnapshotOk;
      FreshOk(v4.configured, v4.mode, ip4, -1);
      FreshOk(v6.configured, v6.mode, ip6, -1);
      SetupTray();
      OpenAndStart(ip4, ip6);
    }

    /** The last step of construction, after which the record of ticks starts. */
    method OpenAndStart(ghost ip4: string, ghost ip6: string)
      requires v4 != v6 && v4.fds == fds && v6.fds == fds && fds.open == {} && fds.opens == 0
      requires v4.log == v6.log == []
      requires v4.View() == FreshTrack(v4.configured, v4.mode, ip4, -1)
      requires v6.View() == FreshTrack(v6.configured, v6.mode, ip6, -1)
      requires CacheOk() && Coherent() && painted == [IconOf(Now())]
      requires ins4 == [] && ins6 == [] && lastTickState == SENTINEL_SNAPSHOT
      modifies this`start4, this`start6, v4`sock, v6`sock, fds
      ensures Valid()
      ensures v4.gatewayIp == old(v4.gatewayIp) && v6.gatewayIp == old(v6.gatewayIp)
      ensures start4 == v4.View() && start6 == v6.View()
    {
      hide FreshTrack, Render, CacheOk, IsFresh, Holds, Once;
      hide TracksOk, SocketsOk, CallsOk, PaintedOk, SnapshotOk;
      FreshGateway(v4.configured, v4.mode, ip4);
      FreshGateway(v6.configured, v6.mode, ip6);
      ghost var t4, t6 := v4.View(), v6.View();
      OpenSockets();
      start4, start6 := v4.View(), v6.View();
      FreshWithSocket(t4, start4, ip4);
      FreshWithSocket(t6, start6, ip6);
      SnapshotDeterminesRender(caption, t4, t6, v4.View(), v6.View());
      NotTickedYet();
    }

    lemma NothingShown()
      requires currentGlyph == SENTINEL_GLYPH && currentTooltip == ""
      ensures Remembered()
    {
    }

    method OpenSockets()
      requires v4 != v6 && v4.fds == fds && v6.fds == fds && fds.open == {} && v4.sock == v6.sock == -1
      modifies v4`sock, v6`sock, fds
      ensures v4.View() == old(v4.View()).(sock := v4.sock) && v6.View() == old(v6.View()).(sock := v6.sock)
      ensures fds.open == Holds(v4.sock) + Holds(v6.sock) && Holds(v4.sock) !! Holds(v6.sock)
      ensures fds.opens == old(fds.opens) + Once(v4.configured) + Once(v6.configured)
    {
      if v4.configured {
        v4.OpenSocket();
      }
      if v6.configured {
        v6.OpenSocket();
      }
    }

    /** The accounts of a monitor that has not ticked. */
    lemma NotTickedYet()
      requires v4 != v6 && v4.fds == fds && v6.fds == fds && v4.log == v6.log == []
      requires IsFresh(start4) && IsFresh(start6) && start4 == v4.View() && start6 == v6.View()
      requires fds.open == Holds(v4.sock) + Holds(v6.sock) && Holds(v4.sock) !! Holds(v6.sock)
      requires fds.opens == Once(v4.configured) + Once(v6.configured)
      requires ins4 == [] && ins6 == [] && lastTickState == SENTINEL_SNAPSHOT && painted == [IconOf(Now())]
      ensures TracksOk() && SocketsOk() && CallsOk() && PaintedOk() && SnapshotOk()
    {
      hide Render, Accounted, RunTrack, Effects, Count, KeysShown, Firsts, IsFresh;
      NoTicks(start4);
      NoTicks(start6);
      OneShown(caption, start4, start6);
      NoCalls(v4, start4);
      NoCalls(v6, start6);
    }

    /** tickV4 and tickV6: only the tracks, their sockets and the record of inputs change. */
    method TickTracks()
      requires TracksOk() && SocketsOk() && CallsOk()
      modifies this`ins4, this`ins6, v4, v6, fds
      ensures TracksOk() && SocketsOk() && CallsOk()
      ensures |ins4| == |old(ins4)| + 1 && ins4[..|old(ins4)|] == old(ins4) && ins6[..|old(ins6)|] == old(ins6)
      ensures TickOf(v4, old(v4.log), old(v4.View()), old(ins4), ins4[|old(ins4)|])
      ensures TickOf(v6, old(v6.log), old(v6.View()), old(ins6), ins6[|old(ins6)|])
    {
      hide TickTrack, EffectOf, Count, RunTrack, Effects, FreshTrack, CallsIn, RunCalls, Once, TickOf;
      ghost var log4, log6 := v4.log, v6.log;
      ghost var in4 := v4.Tick();
      assert Holds(v6.sock) <= fds.open;
      ghost var in6 := v6.Tick();
      AfterTick(v4, log4, start4, ins4, in4);
      AfterTick(v6, log6, start6, ins6, in6);
      ins4, ins6 := ins4 + [in4], ins6 + [in6];
    }

    lemma TracksGood()
      requires TracksOk()
      ensures TrackOk(v4.View()) && TrackOk(v6.View())
    {
      FreshOk(v4.configured, v4.mode, start4.gatewayIp, start4.sock);
      FreshOk(v6.configured, v6.mode, start6.gatewayIp, start6.sock);
      RunOk(start4, ins4);
      RunOk(start6, ins6);
    }

    lemma StreaksNotNegative()
      requires TrackOk(v4.View()) && TrackOk(v6.View())
      ensures v4.failStreak >= 0 && v6.failStreak >= 0
    {
    }

    /** The end of a tick: renders the tray unless the compared tuple is what it was. */
    method UpdateTray(ghost t4: Track, ghost t6: Track)
      requires CacheOk() && Shows(Render(caption, t4, t6))
      requires TrackOk(v4.View()) && TrackOk(v6.View())
      requires t4.configured == v4.configured && t6.configured == v6.configured
      requires lastTickState == SENTINEL_SNAPSHOT || lastTickState == SnapshotOf(t4, t6)
      modifies this`lastTickState, this`currentSeverity, this`currentGlyph, this`trayIcon, this`iconsSet,
               this`iconCache, this`painted, this`menuText, this`menusSet,
               this`currentTooltip, this`trayTooltip, this`tooltipsSet
      ensures CacheOk() && Coherent() && lastTickState == SnapshotOf(v4.View(), v6.View())
      ensures painted == AddNew(old(painted), IconOf(Now()))
      ensures iconsSet == old(iconsSet) + Once(IconOf(Now()) != IconOf(Render(caption, t4, t6)))
      ensures tooltipsSet == old(tooltipsSet) + Once(Now().text != Render(caption, t4, t6).text)
      ensures menusSet == old(menusSet) + Once(SnapshotOf(v4.View(), v6.View()) != old(lastTickState))
    {
      hide Render, TrackOk, KEYS, CacheOk;
      StreaksNotNegative();
      var state := SnapshotOf(v4.View(), v6.View());
      if state != lastTickState {
        lastTickState := state;
        RenderTray();
      } else {
        SnapshotDeterminesRender(caption, t4, t6, v4.View(), v6.View());
        ShownIsCached(Render(caption, t4, t6));
      }
    }

    lemma ShownIsCached(r: Rendering)
      requires CacheOk() && Shows(r)
      ensures AddNew(painted, IconOf(r)) == painted
    {
    }

    /**
     * One timer tick. The tray is given an icon or a tooltip only when it changes, and the glyph names
     * the protocols whose last call of this tick was an answered ping.
     */
    method Tick()
      requires Valid()
      modifies this, v4, v6, fds
      ensures Valid()
      ensures |ins4| == |old(ins4)| + 1 && ins4[..|old(ins4)|] == old(ins4) && ins6[..|old(ins6)|] == old(ins6)
      ensures TickOf(v4, old(v4.log), old(v4.View()), old(ins4), ins4[|old(ins4)|])
      ensures TickOf(v6, old(v6.log), old(v6.View()), old(ins6), ins6[|old(ins6)|])
      ensures iconsSet == old(iconsSet) + Once(IconOf(Now()) != old(IconOf(Now())))
      ensures tooltipsSet == old(tooltipsSet) + Once(Now().text != old(Now().text))
      ensures var changed := SnapshotOf(v4.View(), v6.View()) != old(SnapshotOf(v4.View(), v6.View()));
              menusSet == old(menusSet) + Once(old(ins4) == [] || changed)
      ensures '4' in Now().glyph <==> Answered(v4.log[|old(v4.log)|..])
      ensures '6' in Now().glyph <==> Answered(v6.log[|old(v6.log)|..])
    {
      hide Render, TrackOk, KEYS, CacheOk, SocketsOk, CallsOk, TracksOk, Once, TickOf, Answered;
      hide RunTrack, KeysShown, Firsts, AddNew;
      ghost var t4, t6, ins := v4.View(), v6.View(), (ins4, ins6);
      TickTracks();
      TracksGood();
      StreaksNotNegative();
      UpdateTray(t4, t6);
      OneMoreShown(ins.0, ins.1);
      GlyphTells(caption, v4, v6, old(v4.log), old(v6.log), t4, t6, ins, (ins4[|ins.0|], ins6[|ins.0|]));
    }

    /** The record of painted icons after a tick's render. */
    lemma OneMoreShown(before4: seq<Input>, before6: seq<Input>)
      requires TracksOk() && |before4| == |before6| == |ins4| - 1
      requires ins4[..|before4|] == before4 && ins6[..|before6|] == before6
      requires painted == AddNew(Firsts(KeysShown(start4, start6, before4, before6)), IconOf(Now()))
      ensures PaintedOk()
    {
      hide RunTrack, FreshTrack, Render;
      SameIcon(caption, v4.View(), v6.View());
      KeysSnoc(start4, start6, ins4, ins6);
    }

    /** The timer's life: any number of ticks. */
    method Run(ticks: nat)
      requires Valid() && ins4 == []
      modifies this, v4, v6, fds
      ensures Valid() && |ins4| == ticks && |ins6| == ticks
    {
      for i := 0 to ticks
        invariant Valid() && |ins4| == i
      {
        Tick();
      }
    }

    /** At any point of its life, how often a protocol made which call is what its history asks for. */
    lemma WholeLife(p: Proto)
      requires Valid() && (p == v4 || p == v6)
      ensures p.failStreak == TrailingLosses(Outcomes(History(p)))
      ensures Number(p.log, IsAsk) == if p.configured then (SearchLength(Inputs(p)) + 10) / 11 else 0
      ensures Number(p.log, IsLookup) == Once(p.mode == Auto && ReachedGatewayCheck(LossRuns(Outcomes(History(p)))))
      ensures forall c | c in p.log && c.Pinged? :: c.ip == p.targetIp || (p.mode != Disabled && c.ip == p.gatewayIp)
      ensures Count(History(p), (e: Effect) => e.reopened) == DueReopenings(LossRuns(Outcomes(History(p))))
    {
      hide CacheOk, PaintedOk, SnapshotOk, Coherent, SocketsOk, Accounted, IsFresh, FreshTrack;
      hide RunTrack, Effects, Outcomes, TrailingLosses, LossRuns, Count, ReachedGatewayCheck, DueReopenings, Number;
      CallsOfRun(p, if p == v4 then start4 else start6, Inputs(p));
    }

    /** Likewise of both: sockets opened and held, icons painted, and tracks that some run reaches. */
    lemma WholeRun()
      requires Valid()
      ensures fds.opens == Once(v4.configured) + Once(v6.configured)
                           + DueReopenings(LossRuns(Outcomes(History(v4))))
                           + DueReopenings(LossRuns(Outcomes(History(v6))))
      ensures fds.open == Holds(v4.sock) + Holds(v6.sock) && Holds(v4.sock) !! Holds(v6.sock)
      ensures |iconCache| <= 9 && |painted| <= 9
      ensures Reachable(v4.View(), v6.View())
    {
      NineIcons();
      TracksReached();
      hide FreshTrack, Effects, RunTrack, Outcomes, LossRuns, Count, DueReopenings;
      hide Accounted, Coherent, CacheOk, SnapshotOk, Reachable, Holds;
      WholeLife(v4);
      WholeLife(v6);
    }

    /** An icon is painted when the run first shows it, and no other is ever painted. */
    lemma PaintedOnce()
      requires Valid()
      ensures painted == Firsts(KeysShown(start4, start6, ins4, ins6))
      ensures forall key :: key in painted <==> key in KeysShown(start4, start6, ins4, ins6)
      ensures forall i, j :: 0 <= i < j < |painted| ==> painted[i] != painted[j]
    {
      FirstsContain(KeysShown(start4, start6, ins4, ins6));
    }

    lemma TracksReached()
      requires TracksOk()
      ensures Reachable(v4.View(), v6.View())
    {
      hide IsFresh, RunTrack;
      assert ReachedBy(v4.View(), v6.View(), start4, start6, ins4, ins6);
    }

    lemma NineIcons()
      requires CacheOk()
      ensures |iconCache| <= 9 && |painted| <= 9
    {
      KeysAreNine();
      SubsetSize(iconCache.Keys, KEYS);
      DistinctFits(painted, iconCache.Keys);
    }

    ghost function Inputs(p: Proto): seq<Input>
      reads this`ins4, this`ins6
    {
      if p == v4 then ins4 else ins6
    }

    /** What each tick of a protocol did. */
    ghost function History(p: Proto): seq<Effect>
      reads this`ins4, this`ins6, this`start4, this`start6
    {
      Effects(if p == v4 then start4 else start6, Inputs(p))
    }
  }

  /** The icons a run shows, from before its first tick on. */
  function KeysShown(t4: Track, t6: Track, ins4: seq<Input>, ins6: seq<Input>): (keys: seq<IconKey>)
    requires |ins4| == |ins6|
    ensures keys != []
  {
    (if ins4 == [] then [] else KeysShown(t4, t6, ins4[..|ins4| - 1], ins6[..|ins6| - 1]))
    + [KeyOf(RunTrack(t4, ins4), RunTrack(t6, ins6))]
  }

  function AddNew(keys: seq<IconKey>, key: IconKey): seq<IconKey> {
    if key in keys then keys else keys + [key]
  }

  /** The different ones among them, in the order of their first appearance. */
  function Firsts(keys: seq<IconKey>): seq<IconKey> {
    if keys == [] then [] else AddNew(Firsts(keys[..|keys| - 1]), keys[|keys| - 1])
  }

  lemma {:induction false} FirstsContain(keys: seq<IconKey>)
    ensures forall key :: key in Firsts(keys) <==> key in keys
  {
    if keys != [] {
      FirstsContain(keys[..|keys| - 1]);
      assert keys == keys[..|keys| - 1] + [keys[|keys| - 1]];
    }
  }

  lemma SameIcon(caption: string, v4: Track, v6: Track)
    ensures KeyOf(v4, v6) == IconOf(Render(caption, v4, v6))
  {
  }

  lemma OneShown(caption: string, t4: Track, t6: Track)
    ensures Firsts(KeysShown(t4, t6, [], [])) == [IconOf(Render(caption, t4, t6))]
  {
    hide Render;
    SameIcon(caption, t4, t6);
    var keys := KeysShown(t4, t6, [], []);
    assert keys == [KeyOf(t4, t6)] && keys[..0] == [];
  }

  lemma KeysSnoc(t4: Track, t6: Track, ins4: seq<Input>, ins6: seq<Input>)
    requires |ins4| == |ins6| > 0
    ensures var n := |ins4| - 1;
            Firsts(KeysShown(t4, t6, ins4, ins6)) ==
            AddNew(Firsts(KeysShown(t4, t6, ins4[..n], ins6[..n])), KeyOf(RunTrack(t4, ins4), RunTrack(t6, ins6)))
  {
    hide RunTrack, KeyOf;
    var keys, n := KeysShown(t4, t6, ins4, ins6), |ins4| - 1;
    assert keys[..|keys| - 1] == KeysShown(t4, t6, ins4[..n], ins6[..n]);
  }

  /** The calls a protocol has made, and their answers, are those of the model's run. */
  ghost predicate Accounted(p: Proto, start: Track, ins: seq<Input>)
    reads p
  {
    p.log == RunCalls(p.targetIp, start, ins)
  }

  lemma NoCalls(p: Proto, start: Track)
    requires p.log == []
    ensures Accounted(p, start, [])
  {
  }

  /** One protocol has gone through these ticks. */
  ghost predicate HasRun(p: Proto, start: Track, ins: seq<Input>)
    reads p
  {
    && Accounted(p, start, ins) && p.View() == RunTrack(start, ins)
    && IsFresh(start) && start.configured == p.configured && start.mode == p.mode
  }

  /** When a tick asks for an address, by the clock and by what was found before. */
  ghost predicate AskDue(configured: bool, ins: seq<Input>) {
    configured && RecheckDue(|ins|) && !FoundBy(ins, |ins|)
  }

  /**
   * A protocol's tick after `ins`: the calls it made with their answers, whether an address check was
   * among them, and that an answered ping is what makes it healthy or blue.
   */
  ghost predicate TickOf(p: Proto, logBefore: seq<Call>, before: Track, ins: seq<Input>, input: Input)
    reads p
  {
    var calls := CallsIn(p.targetIp, before, input);
    && p.log == logBefore + calls && p.View() == TickTrack(before, input)
    && Number(p.log, IsAsk) == Number(logBefore, IsAsk) + Once(AskDue(p.configured, ins))
    && (Answered(calls) <==> StateOf(p.View()) == Healthy || SeverityOf(p.View()) == Blue)
  }

  lemma AskedNow(start: Track, ins: seq<Input>, input: Input)
    requires IsFresh(start)
    ensures EffectOf(RunTrack(start, ins), input).addressAsked <==> AskDue(start.configured, ins)
  {
    var all := ins + [input];
    assert all[..|ins|] == ins;
    if start.configured {
      RecheckSchedule(start.mode, start.gatewayIp, start.sock, all, |ins|);
      FoundPrefix(all, |ins|);
      EffectAt(start, all, |ins|);
    } else {
      UnconfiguredIsIdle(start.mode, start.gatewayIp, start.sock, ins);
    }
  }

  /** What one more tick adds to the accounts of a run. */
  lemma AfterTick(p: Proto, logBefore: seq<Call>, start: Track, ins: seq<Input>, input: Input)
    requires IsFresh(start) && p.configured == start.configured
    requires logBefore == RunCalls(p.targetIp, start, ins)
    requires p.log == logBefore + CallsIn(p.targetIp, RunTrack(start, ins), input)
    requires p.View() == TickTrack(RunTrack(start, ins), input)
    ensures var es, e := Effects(start, ins), EffectOf(RunTrack(start, ins), input);
            && TickOf(p, logBefore, RunTrack(start, ins), ins, input)
            && Accounted(p, start, ins + [input]) && p.View() == RunTrack(start, ins + [input])
            && Count(Effects(start, ins + [input]), (e: Effect) => e.reopened) ==
               Count(es, (e: Effect) => e.reopened) + Once(e.reopened)
  {
    FreshOk(start.configured, start.mode, start.gatewayIp, start.sock);
    RunOk(start, ins);
    hide TickTrack, EffectOf, CallsIn, Count, IsFresh, TrackOk, TickOf, RunTrack, Effects, RunCalls;
    AskedNow(start, ins, input);
    OneTick(p, logBefore, RunTrack(start, ins), ins, input);
    ProtoRuns.RunSnoc(start, ins, input);
    CallsSnoc(p.targetIp, start, ins, input);
    CountSnoc(Effects(start, ins), EffectOf(RunTrack(start, ins), input), (e: Effect) => e.reopened);
  }

  lemma CallsSnoc(target: string, start: Track, ins: seq<Input>, input: Input)
    ensures RunCalls(target, start, ins + [input]) ==
            RunCalls(target, start, ins) + CallsIn(target, RunTrack(start, ins), input)
  {
    assert (ins + [input])[..|ins|] == ins;
  }

  lemma OneTick(p: Proto, logBefore: seq<Call>, before: Track, ins: seq<Input>, input: Input)
    requires TrackOk(before) && (EffectOf(before, input).addressAsked <==> AskDue(p.configured, ins))
    requires p.log == logBefore + CallsIn(p.targetIp, before, input) && p.View() == TickTrack(before, input)
    ensures TickOf(p, logBefore, before, ins, input)
  {
    hide TickTrack, EffectOf, CallsIn, TrackOk, AskDue, Answered, Number, StateOf, SeverityOf;
    AnsweredIsShown(p.targetIp, before, input);
    TickNumbers(p.targetIp, before, input);
    NumberConcat(logBefore, CallsIn(p.targetIp, before, input), IsAsk);
  }

  lemma GlyphTells(
    caption: string, v4: Proto, v6: Proto, log4: seq<Call>, log6: seq<Call>, t4: Track, t6: Track,
    ins: (seq<Input>, seq<Input>), input: (Input, Input))
    requires TrackOk(v4.View()) && TrackOk(v6.View())
    requires TickOf(v4, log4, t4, ins.0, input.0) && TickOf(v6, log6, t6, ins.1, input.1)
    ensures |log4| <= |v4.log| && |log6| <= |v6.log|
    ensures var r := Render(caption, v4.View(), v6.View());
            && ('4' in r.glyph <==> Answered(v4.log[|log4|..]))
            && ('6' in r.glyph <==> Answered(v6.log[|log6|..]))
  {
    GlyphExact(caption, v4.View(), v6.View());
    hide Render, CallsIn, Answered, Number, TickTrack;
    assert v4.log[|log4|..] == CallsIn(v4.targetIp, t4, input.0);
    assert v6.log[|log6|..] == CallsIn(v6.targetIp, t6, input.1);
  }

  /** The calls of a protocol's whole life. */
  lemma CallsOfRun(p: Proto, start: Track, ins: seq<Input>)
    requires HasRun(p, start, ins)
    ensures p.failStreak == TrailingLosses(Outcomes(Effects(start, ins)))
    ensures Count(Effects(start, ins), (e: Effect) => e.reopened) ==
            DueReopenings(LossRuns(Outcomes(Effects(start, ins))))
    ensures Number(p.log, IsAsk) == if p.configured then (SearchLength(ins) + 10) / 11 else 0
    ensures Number(p.log, IsLookup) ==
            Once(p.mode == Auto && ReachedGatewayCheck(LossRuns(Outcomes(Effects(start, ins)))))
    ensures forall c | c in p.log && c.Pinged? :: c.ip == p.targetIp || (p.mode != Disabled && c.ip == p.gatewayIp)
  {
    var configured, mode, ip, sock := p.configured, p.mode, start.gatewayIp, start.sock;
    assert start == FreshTrack(configured, mode, ip, sock);
    hide FreshTrack, Effects, RunTrack, RunCalls, Number;
    hide Outcomes, TrailingLosses, LossRuns, Count, ReachedGatewayCheck;
    StreakAndReopenings(configured, mode, ip, sock, ins);
    RouteLookups(configured, mode, ip, sock, ins);
    RunNumbers(p.targetIp, start, ins);
    if configured {
      RecheckCount(mode, ip, sock, ins);
    } else {
      UnconfiguredIsIdle(mode, ip, sock, ins);
    }
    forall c | c in p.log && c.Pinged? && c.ip != p.targetIp ensures mode != Disabled && c.ip == p.gatewayIp {
      OnlyKnownPinged(configured, mode, ip, sock, p.targetIp, ins, c);
    }
  }

  lemma FreshWithSocket(t: Track, t': Track, ip: string)
    requires t == FreshTrack(t.configured, t.mode, ip, -1) && t' == t.(sock := t'.sock)
    ensures IsFresh(t')
  {
  }

  lemma NoTicks(start: Track)
    ensures RunTrack(start, []) == start && Count(Effects(start, []), (e: Effect) => e.reopened) == 0
  {
  }

  lemma FreshGateway(configured: bool, mode: Mode, ip: string)
    ensures FreshTrack(configured, mode, ip, -1).gatewayIp == if mode == Fixed then ip else ""
    ensures FreshTrack(configured, mode, ip, -1).sock == -1
  {
  }

  lemma SubsetSize<T>(s: set<T>, t: set<T>)
    requires s <= t
    ensures |s| <= |t|
  {
    assert t == s + (t - s);
  }

  /** A list without repetitions drawn from a set is no longer than the set. */
  lemma {:induction false} DistinctFits<T>(xs: seq<T>, s: set<T>)
    requires forall i, j :: 0 <= i < j < |xs| ==> xs[i] != xs[j]
    requires forall x | x in xs :: x in s
    ensures |xs| <= |s|
  {
    if xs != [] {
      var n := |xs| - 1;
      DistinctFits(xs[..n], s - {xs[n]});
    }
  }

  lemma KeysHaveNoSentinel()
    ensures forall key | key in KEYS :: key.1 != SENTINEL_GLYPH
  {
    GlyphsHaveNoSentinel();
  }

  lemma GlyphsHaveNoSentinel()
    ensures SENTINEL_GLYPH != "" && SENTINEL_GLYPH != "4" && SENTINEL_GLYPH != "6" && SENTINEL_GLYPH != "4/6"
  {
    assert SENTINEL_GLYPH[0] != "4"[0] && SENTINEL_GLYPH[0] != "6"[0] && SENTINEL_GLYPH[0] != "4/6"[0];
  }

  lemma TextNotEmpty(caption: string, v4: Track, v6: Track)
    ensures StatusTextFor(caption, v4, v6) != ""
  {
    assert ": no target resolved" != "" && ": " != "";
  }
}
