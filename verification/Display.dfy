/** ping_monitor_status_text.cpp: what the tray shows for two tracks, without any cache. */
module Display {
  import opened Options
  import opened ProtoTrack
  import opened ProtoRuns

  datatype Rendering = Rendering(colour: Severity, glyph: string, text: string)

  function GlyphFor(v4State: ProtoState, v6State: ProtoState, v4Severity: Severity, v6Severity: Severity): string {
    var glyph := if v4State == Healthy || v4Severity == Blue then "4" else "";
    if v6State == Healthy || v6Severity == Blue then (if glyph != "" then glyph + "/" else glyph) + "6" else glyph
  }

  function WorstSeverityOf(
    v4State: ProtoState, v6State: ProtoState, v4Severity: Severity, v6Severity: Severity): Severity
  {
    if v4State == Healthy || v6State == Healthy then Green
    else if v4Severity == Blue || v6Severity == Blue then Blue
    else if (v4State == Failing && v4Severity == Yellow) || (v6State == Failing && v6Severity == Yellow) then Yellow
    else if v4State == Failing || v6State == Failing then Red
    else Green
  }

  function Decimal(n: nat): string {
    var digit := ["0", "1", "2", "3", "4", "5", "6", "7", "8", "9"][n % 10];
    if n < 10 then digit else Decimal(n / 10) + digit
  }

  function ProtoStatusText(tag: string, state: ProtoState, t: Track): string {
    if state == Healthy then tag + " connected"
    else
      var losses := if t.failStreak < 0 then "-" + Decimal(-t.failStreak) else Decimal(t.failStreak);
      tag + ": " + losses + " consecutive losses" + if t.gatewayReachable then " (gateway reachable)" else ""
  }

  function StatusTextFor(caption: string, v4: Track, v6: Track): string {
    var four := if StateOf(v4) != NoLocalAddress then [ProtoStatusText("v4", StateOf(v4), v4)] else [];
    var six := if StateOf(v6) != NoLocalAddress then [ProtoStatusText("v6", StateOf(v6), v6)] else [];
    var parts := four + six;
    if parts == [] then caption + ": no target resolved"
    else caption + ": " + if |parts| == 1 then parts[0] else parts[0] + ", " + parts[1]
  }

  function Render(caption: string, v4: Track, v6: Track): Rendering {
    Rendering(
      WorstSeverityOf(StateOf(v4), StateOf(v6), SeverityOf(v4), SeverityOf(v6)),
      GlyphFor(StateOf(v4), StateOf(v6), SeverityOf(v4), SeverityOf(v6)),
      StatusTextFor(caption, v4, v6))
  }

  /** The tuple tick() compares to decide whether to render at all. */
  datatype Snapshot = Snapshot(
    v4Streak: int, v4Address: bool, v4Gateway: bool,
    v6Streak: int, v6Address: bool, v6Gateway: bool)

  function SnapshotOf(v4: Track, v6: Track): Snapshot {
    Snapshot(v4.failStreak, v4.hasLocalAddress, v4.gatewayReachable,
             v6.failStreak, v6.hasLocalAddress, v6.gatewayReachable)
  }

  /** Equal tuples render equally: skipping the render then shows nothing stale. */
  lemma SnapshotDeterminesRender(caption: string, v4: Track, v6: Track, v4': Track, v6': Track)
    requires v4.configured == v4'.configured && v6.configured == v6'.configured
    requires SnapshotOf(v4, v6) == SnapshotOf(v4', v6')
    ensures Render(caption, v4, v6) == Render(caption, v4', v6')
  {
    TextDetermined("v4", v4, v4');
    TextDetermined("v6", v6, v6');
  }

  lemma TextDetermined(tag: string, t: Track, t': Track)
    requires t.configured == t'.configured && t.failStreak == t'.failStreak
    requires t.hasLocalAddress == t'.hasLocalAddress && t.gatewayReachable == t'.gatewayReachable
    ensures StateOf(t) == StateOf(t') && SeverityOf(t) == SeverityOf(t')
    ensures ProtoStatusText(tag, StateOf(t), t) == ProtoStatusText(tag, StateOf(t'), t')
  {
  }

  // ---------- What is shown on reachable states ----------

  type IconKey = (Severity, string)

  /** The only pairs of colour and glyph ever shown. */
  const KEYS: set<IconKey> := {
    (Green, ""), (Green, "4"), (Green, "6"), (Green, "4/6"),
    (Blue, "4"), (Blue, "6"), (Blue, "4/6"), (Yellow, ""), (Red, "")}

  lemma KeysAreNine()
    ensures |KEYS| == 9
  {
    GlyphsDiffer();
    var greens: set<IconKey> := {(Green, ""), (Green, "4"), (Green, "6"), (Green, "4/6")};
    var blues: set<IconKey> := {(Blue, "4"), (Blue, "6"), (Blue, "4/6")};
    var others: set<IconKey> := {(Yellow, ""), (Red, "")};
    assert |greens| == 4 && |blues| == 3 && |others| == 2;
    assert KEYS == greens + blues + others;
    assert |greens + blues| == 7;
  }

  lemma GlyphsDiffer()
    ensures "4" != "6" && "4" != "4/6" && "6" != "4/6" && "" != "4" && "" != "6" && "" != "4/6"
  {
    assert |"4"| == 1 && |"4/6"| == 3 && "4"[0] != "6"[0];
  }

  function IconOf(r: Rendering): IconKey {
    (r.colour, r.glyph)
  }

  /** The icon shown for two tracks, whatever the caption. */
  function KeyOf(v4: Track, v6: Track): IconKey {
    IconOf(Render("", v4, v6))
  }

  lemma OnlyKeysShown(caption: string, v4: Track, v6: Track)
    requires TrackOk(v4) && TrackOk(v6)
    ensures KeyOf(v4, v6) == IconOf(Render(caption, v4, v6))
    ensures KeyOf(v4, v6) in KEYS
  {
    assert "4" + "/" + "6" == "4/6";
    assert "" + "6" == "6";
  }

  predicate IsFresh(t: Track) {
    t == FreshTrack(t.configured, t.mode, t.gatewayIp, t.sock)
  }

  ghost predicate ReachedBy(v4: Track, v6: Track, t4: Track, t6: Track, ins4: seq<Input>, ins6: seq<Input>) {
    IsFresh(t4) && IsFresh(t6) && |ins4| == |ins6| && v4 == RunTrack(t4, ins4) && v6 == RunTrack(t6, ins6)
  }

  /** Some monitor has these two tracks after some number of ticks. */
  ghost predicate Reachable(v4: Track, v6: Track) {
    exists t4, t6, ins4, ins6 :: ReachedBy(v4, v6, t4, t6, ins4, ins6)
  }

  lemma ReachableOk(v4: Track, v6: Track)
    requires Reachable(v4, v6)
    ensures TrackOk(v4) && TrackOk(v6)
  {
    var t4, t6, ins4, ins6 :| ReachedBy(v4, v6, t4, t6, ins4, ins6);
    FreshOk(t4.configured, t4.mode, t4.gatewayIp, t4.sock);
    FreshOk(t6.configured, t6.mode, t6.gatewayIp, t6.sock);
    RunOk(t4, ins4);
    RunOk(t6, ins6);
  }

  // ---------- Scripted runs ----------

  /** One tick: the address is there, the target answers or not, and the gateway too, once it is asked. */
  function Scripted(sock: int, won: bool, gateway: bool): Input {
    Input(true, won, sock, Some("gw"), gateway)
  }

  function Script(sock: int, wins: nat, losses: nat, gateway: bool): (ins: seq<Input>)
    ensures |ins| == wins + losses
  {
    if losses > 0 then Script(sock, wins, losses - 1, gateway) + [Scripted(sock, false, gateway)]
    else if wins > 0 then Script(sock, wins - 1, 0, gateway) + [Scripted(sock, true, gateway)]
    else []
  }

  /** Where a script of so many ticks and final losses leads. */
  predicate Played(t: Track, sock: nat, ticks: nat, losses: nat, gateway: bool) {
    var checked := losses >= GATEWAY_CHECK;
    && t.configured && t.mode == Auto && t.sock == sock && t.failStreak == losses
    && t.hasLocalAddress == (ticks > 0) && (ticks == 0 ==> t.recheckTicksLeft == 0)
    && t.gatewayResolved == checked && t.gatewayIp == (if checked then "gw" else "")
    && t.gatewayReachable == (checked && gateway)
  }

  lemma PlayedWin(t: Track, sock: nat, ticks: nat, gateway: bool)
    requires Played(t, sock, ticks, 0, gateway)
    ensures Played(TickTrack(t, Scripted(sock, true, gateway)), sock, ticks + 1, 0, gateway)
  {
  }

  lemma PlayedLoss(t: Track, sock: nat, ticks: nat, losses: nat, gateway: bool)
    requires Played(t, sock, ticks, losses, gateway)
    ensures Played(TickTrack(t, Scripted(sock, false, gateway)), sock, ticks + 1, losses + 1, gateway)
  {
  }

  lemma PlayedStart(sock: nat, gateway: bool)
    ensures Played(FreshTrack(true, Auto, "", sock), sock, 0, 0, gateway)
  {
  }

  lemma ScriptEnds(sock: nat, wins: nat, losses: nat, gateway: bool)
    ensures wins + losses == 0 ==> Script(sock, wins, losses, gateway) == []
    ensures losses > 0 ==>
              Script(sock, wins, losses, gateway) ==
              Script(sock, wins, losses - 1, gateway) + [Scripted(sock, false, gateway)]
    ensures losses == 0 && wins > 0 ==>
              Script(sock, wins, 0, gateway) == Script(sock, wins - 1, 0, gateway) + [Scripted(sock, true, gateway)]
  {
  }

  /** Any streak is reached by as many losses, and from the tenth on the gateway counts. */
  lemma {:induction false} ScriptTrack(sock: nat, wins: nat, losses: nat, gateway: bool)
    ensures var t := RunTrack(FreshTrack(true, Auto, "", sock), Script(sock, wins, losses, gateway));
            Played(t, sock, wins + losses, losses, gateway)
  {
    var start := FreshTrack(true, Auto, "", sock);
    hide FreshTrack, TickTrack, Played, Scripted, Script;
    ScriptEnds(sock, wins, losses, gateway);
    if losses > 0 {
      ScriptTrack(sock, wins, losses - 1, gateway);
      var before := Script(sock, wins, losses - 1, gateway);
      RunSnoc(start, before, Scripted(sock, false, gateway));
      PlayedLoss(RunTrack(start, before), sock, wins + losses - 1, losses - 1, gateway);
    } else if wins > 0 {
      ScriptTrack(sock, wins - 1, 0, gateway);
      var before := Script(sock, wins - 1, 0, gateway);
      RunSnoc(start, before, Scripted(sock, true, gateway));
      PlayedWin(RunTrack(start, before), sock, wins - 1, gateway);
    } else {
      PlayedStart(sock, gateway);
    }
  }

  /** A protocol played to a script of `n` ticks, or one that has no target. */
  lemma PlayOne(active: bool, sock: nat, n: nat, losses: nat, gateway: bool)
    returns (start: Track, ins: seq<Input>, t: Track)
    requires 0 < n && losses <= n
    ensures IsFresh(start) && |ins| == n && t == RunTrack(start, ins)
    ensures Active(t) == active && t.configured == active
    ensures active ==> t.failStreak == losses && t.gatewayReachable == (losses >= GATEWAY_CHECK && gateway)
    ensures !active ==> t.failStreak == 0 && !t.gatewayReachable
  {
    hide RunTrack, Script, Effects, Count;
    ins := Script(sock, n - losses, losses, gateway);
    if active {
      start := FreshTrack(true, Auto, "", sock);
      ScriptTrack(sock, n - losses, losses, gateway);
    } else {
      start := FreshTrack(false, Auto, "", -1);
      UnconfiguredIsIdle(Auto, "", -1, ins);
    }
    t := RunTrack(start, ins);
  }

  /** Both protocols played for ten ticks. */
  lemma Play(active4: bool, losses4: nat, active6: bool, losses6: nat) returns (v4: Track, v6: Track)
    requires losses4 <= 10 && losses6 <= 10
    ensures Reachable(v4, v6)
    ensures Active(v4) == active4 && Active(v6) == active6
    ensures active4 ==> v4.failStreak == losses4 && v4.gatewayReachable == (losses4 == 10)
    ensures active6 ==> v6.failStreak == losses6 && v6.gatewayReachable == (losses6 == 10)
    ensures !active4 ==> v4.failStreak == 0 && !v4.gatewayReachable
    ensures !active6 ==> v6.failStreak == 0 && !v6.gatewayReachable
  {
    hide RunTrack, IsFresh, Active;
    var t4, ins4, now4 := PlayOne(active4, 3, 10, losses4, true);
    var t6, ins6, now6 := PlayOne(active6, 4, 10, losses6, true);
    v4, v6 := now4, now6;
    assert ReachedBy(v4, v6, t4, t6, ins4, ins6);
  }

  /** Total failure of IPv4 alone. */
  lemma PlayDown() returns (v4: Track, v6: Track)
    ensures Reachable(v4, v6) && Active(v4) && Down(v4) && !Active(v6)
    ensures v6.failStreak == 0 && !v6.gatewayReachable
  {
    hide RunTrack, IsFresh, Active;
    var t4, ins4, now4 := PlayOne(true, 3, 10, 10, false);
    var t6, ins6, now6 := PlayOne(false, 4, 10, 0, false);
    v4, v6 := now4, now6;
    assert ReachedBy(v4, v6, t4, t6, ins4, ins6);
  }

  ghost predicate ShownOnARun(key: IconKey) {
    exists v4, v6 :: Reachable(v4, v6) && KeyOf(v4, v6) == key
  }

  lemma EveryKeyShown(key: IconKey) returns (v4: Track, v6: Track)
    requires key in KEYS
    ensures Reachable(v4, v6) && KeyOf(v4, v6) == key
  {
    GlyphsHaveMarks();
    hide Reachable, KeyOf;
    match key.0 {
      case Yellow => v4, v6 := Play(true, 1, false, 0);
      case Red => v4, v6 := PlayDown();
      case Green => v4, v6 := Play('4' in key.1, 0, '6' in key.1, 0);
      case Blue => v4, v6 := Play('4' in key.1, 10, '6' in key.1, 10);
    }
    KeyOfGlyph(v4, v6);
    KeyOfColour(v4, v6);
  }

  /** The glyph that names these protocols. */
  function Marks(four: bool, six: bool): string {
    if four && six then "4/6" else if four then "4" else if six then "6" else ""
  }

  lemma GlyphsHaveMarks()
    ensures forall key | key in KEYS :: key.1 == Marks('4' in key.1, '6' in key.1)
  {
    assert '4' in "4" && '6' in "6" && '4' in "4/6" && '6' in "4/6";
  }

  lemma KeyOfGlyph(v4: Track, v6: Track)
    ensures KeyOf(v4, v6).1 == GlyphFor(StateOf(v4), StateOf(v6), SeverityOf(v4), SeverityOf(v6))
    ensures KeyOf(v4, v6).1 == Marks(StateOf(v4) == Healthy || SeverityOf(v4) == Blue,
                                     StateOf(v6) == Healthy || SeverityOf(v6) == Blue)
  {
    hide StateOf, SeverityOf, StatusTextFor;
    assert "4" + "/" + "6" == "4/6" && "" + "6" == "6";
  }

  lemma KeyOfColour(v4: Track, v6: Track)
    ensures KeyOf(v4, v6).0 == WorstSeverityOf(StateOf(v4), StateOf(v6), SeverityOf(v4), SeverityOf(v6))
  {
  }

  /** The icons that some run shows are exactly the nine. */
  lemma ShownKeys(key: IconKey)
    ensures ShownOnARun(key) <==> key in KEYS
  {
    if ShownOnARun(key) {
      var v4, v6 :| Reachable(v4, v6) && KeyOf(v4, v6) == key;
      ReachableOk(v4, v6);
      OnlyKeysShown("", v4, v6);
    }
    if key in KEYS {
      var v4, v6 := EveryKeyShown(key);
    }
  }

  // ---------- What the display means ----------

  predicate Active(t: Track) {
    t.configured && t.hasLocalAddress
  }

  /** Target lost ten times or more in a row, and the gateway too. */
  predicate Down(t: Track) {
    t.failStreak >= 10 && !t.gatewayReachable
  }

  /**
   * The glyph names exactly the protocols that reach their target or gateway, so yellow and red have
   * none and blue has one.
   */
  lemma GlyphExact(caption: string, v4: Track, v6: Track)
    requires TrackOk(v4) && TrackOk(v6)
    ensures var r := Render(caption, v4, v6);
            && (r.colour == Yellow || r.colour == Red ==> r.glyph == "")
            && (r.colour == Blue ==> r.glyph != "")
            && ('4' in r.glyph <==> Active(v4) && (v4.failStreak == 0 || v4.gatewayReachable))
            && ('6' in r.glyph <==> Active(v6) && (v6.failStreak == 0 || v6.gatewayReachable))
  {
    assert "4" + "/" + "6" == ['4', '/', '6'];
    assert "4" == ['4'] && "" + "6" == ['6'];
  }

  /** Red means total failure, and only that. */
  lemma RedExact(caption: string, v4: Track, v6: Track)
    requires TrackOk(v4) && TrackOk(v6)
    ensures Render(caption, v4, v6).colour == Red <==>
            (Active(v4) || Active(v6)) && (Active(v4) ==> Down(v4)) && (Active(v6) ==> Down(v6))
  {
  }

  /** The colour rules of README.md, in the order it lists them, for at least one active protocol. */
  function DocumentedColour(v4: Track, v6: Track): Severity {
    if (Active(v4) && v4.failStreak == 0) || (Active(v6) && v6.failStreak == 0) then Green
    else if (Active(v4) && 1 <= v4.failStreak <= 9) || (Active(v6) && 1 <= v6.failStreak <= 9) then Yellow
    else if (Active(v4) && v4.gatewayReachable) || (Active(v6) && v6.gatewayReachable) then Blue
    else Red
  }

  /** One protocol in its first nine losses while the other only reaches its gateway. */
  predicate Mixed(t: Track, u: Track) {
    Active(t) && 1 <= t.failStreak <= 9 && Active(u) && u.gatewayReachable
  }

  /** The code tests blue before yellow, so it departs from README.md exactly in the mixed case. */
  lemma DocumentedUnlessMixed(caption: string, v4: Track, v6: Track)
    requires TrackOk(v4) && TrackOk(v6) && (Active(v4) || Active(v6))
    ensures Render(caption, v4, v6).colour == DocumentedColour(v4, v6) <==> !Mixed(v4, v6) && !Mixed(v6, v4)
  {
  }

  /** Such a case occurs: five losses on IPv4, ten with a live gateway on IPv6. */
  lemma MixedExample(caption: string) returns (v4: Track, v6: Track)
    ensures Reachable(v4, v6) && Mixed(v4, v6)
    ensures Render(caption, v4, v6).colour == Blue && DocumentedColour(v4, v6) == Yellow
  {
    v4, v6 := Play(true, 5, true, 10);
    ReachableOk(v4, v6);
    hide Reachable;
    DocumentedUnlessMixed(caption, v4, v6);
  }
}
