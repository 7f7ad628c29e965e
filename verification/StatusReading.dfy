/** The status text can be read back: it tells apart all that the tray is about. */
module StatusReading {
  import opened ProtoTrack
  import opened Display

  /** What a reader should learn of a protocol: nothing if inactive, else its losses and its gateway. */
  datatype Seen = Hidden | Shown(losses: int, gateway: bool)

  function SeenOf(t: Track): Seen {
    if StateOf(t) == NoLocalAddress then Hidden else Shown(t.failStreak, t.gatewayReachable)
  }

  function Part(tag: string, t: Track): string {
    ProtoStatusText(tag, StateOf(t), t)
  }

  // ---------- Splitting at a separator ----------

  predicate Free(s: string, c: char) {
    forall i :: 0 <= i < |s| ==> s[i] != c
  }

  lemma NotShorter(p: string, q: string, p': string, q': string, c: char)
    requires Free(p', c) && p + [c] + q == p' + [c] + q'
    ensures |p| >= |p'|
  {
    assert (p + [c] + q)[|p|] == c;
  }

  lemma SameSplit(p: string, q: string, p': string, q': string, c: char)
    requires Free(p, c) && Free(p', c) && p + [c] + q == p' + [c] + q'
    ensures p == p' && q == q'
  {
    NotShorter(p, q, p', q', c);
    NotShorter(p', q', p, q, c);
    var s := p + [c] + q;
    assert s[..|p|] == p && s[|p| + 1..] == q;
    assert s[..|p'|] == p' && s[|p'| + 1..] == q';
  }

  lemma NoSplit(p: string, q: string, r: string, c: char)
    requires Free(r, c)
    ensures p + [c] + q != r
  {
    assert (p + [c] + q)[|p|] == c;
  }

  // ---------- Numbers ----------

  predicate Digits(s: string) {
    |s| > 0 && forall i :: 0 <= i < |s| ==> '0' <= s[i] <= '9'
  }

  function Digit(d: nat): char
    requires d < 10
  {
    "0123456789"[d]
  }

  lemma DigitsDiffer(d: nat, e: nat)
    requires d < 10 && e < 10 && Digit(d) == Digit(e)
    ensures d == e
  {
  }

  lemma DecimalEnds(n: nat)
    ensures Decimal(n) == (if n < 10 then [] else Decimal(n / 10)) + [Digit(n % 10)]
  {
  }

  lemma {:induction false} DecimalDigits(n: nat)
    ensures Digits(Decimal(n))
  {
    if n >= 10 {
      DecimalDigits(n / 10);
    }
    DecimalEnds(n);
  }

  /** The number a string of decimal digits stands for. */
  function Value(s: string): int
    requires Digits(s)
  {
    var last := s[|s| - 1] as int - '0' as int;
    if |s| == 1 then last else 10 * Value(s[..|s| - 1]) + last
  }

  /** `s` is how `n` is written: its digits, without a leading zero. */
  predicate IsNumeral(s: string, n: int) {
    Digits(s) && Value(s) == n && (|s| > 1 ==> s[0] != '0')
  }

  lemma {:induction false} DecimalIsNumeral(n: nat)
    ensures IsNumeral(Decimal(n), n)
  {
    DecimalDigits(n);
    DecimalEnds(n);
    DigitIs(n % 10);
    if n >= 10 {
      DecimalIsNumeral(n / 10);
      var s := Decimal(n);
      assert s[..|s| - 1] == Decimal(n / 10);
      NotZero(n / 10);
    }
  }

  lemma DigitIs(d: nat)
    requires d < 10
    ensures Digit(d) as int == '0' as int + d
  {
  }

  lemma {:induction false} NotZero(n: nat)
    requires n > 0
    ensures Decimal(n) != "0" && Decimal(n)[0] != '0'
  {
    DecimalEnds(n);
    DigitIs(n % 10);
    if n >= 10 {
      NotZero(n / 10);
    }
  }

  lemma {:induction false} DecimalInjective(n: nat, m: nat)
    requires Decimal(n) == Decimal(m)
    ensures n == m
  {
    DecimalEnds(n);
    DecimalEnds(m);
    var before, before' := if n < 10 then [] else Decimal(n / 10), if m < 10 then [] else Decimal(m / 10);
    assert before == Decimal(n)[..|before|] && before' == Decimal(m)[..|before'|];
    assert |Decimal(n)| == |before| + 1 && |Decimal(m)| == |before'| + 1;
    assert Decimal(n)[|before|] == Digit(n % 10) && Decimal(m)[|before'|] == Digit(m % 10);
    DigitsDiffer(n % 10, m % 10);
    if n >= 10 {
      DecimalDigits(n / 10);
    }
    if m >= 10 {
      DecimalDigits(m / 10);
    }
    if n >= 10 && m >= 10 {
      DecimalInjective(n / 10, m / 10);
    }
  }

  // ---------- One protocol's part ----------

  const LOSSES := "consecutive losses"
  const GATEWAY := " (gateway reachable)"

  /** A failing protocol's part, taken apart at its first two blanks. */
  lemma FailingPart(tag: string, t: Track)
    requires StateOf(t) == Failing && t.failStreak >= 0
    ensures Part(tag, t) ==
            (tag + ":") + [' ']
            + (Decimal(t.failStreak) + [' '] + (LOSSES + if t.gatewayReachable then GATEWAY else ""))
  {
    assert " consecutive losses" == [' '] + LOSSES;
    assert ": " == ":" + [' '];
  }

  lemma HealthyPart(tag: string, t: Track)
    requires StateOf(t) == Healthy
    ensures Part(tag, t) == tag + [' '] + "connected"
  {
    assert " connected" == [' '] + "connected";
  }

  predicate IsTag(tag: string) {
    tag == "v4" || tag == "v6"
  }

  /** A blank behind the tag means healthy. */
  lemma PartThird(tag: string, t: Track)
    requires IsTag(tag) && StateOf(t) != NoLocalAddress && t.failStreak >= 0
    ensures |Part(tag, t)| > 2 && (Part(tag, t)[2] == ' ' <==> StateOf(t) == Healthy)
  {
    if StateOf(t) == Healthy {
      HealthyPart(tag, t);
    } else {
      FailingPart(tag, t);
    }
  }

  /** Two parts that read the same say the same. */
  lemma PartTells(tag: string, t: Track, u: Track)
    requires IsTag(tag) && TrackOk(t) && TrackOk(u)
    requires StateOf(t) != NoLocalAddress && StateOf(u) != NoLocalAddress
    requires Part(tag, t) == Part(tag, u)
    ensures SeenOf(t) == SeenOf(u)
  {
    PartThird(tag, t);
    PartThird(tag, u);
    if StateOf(t) == Failing && StateOf(u) == Failing {
      FailingTells(tag, t, u);
    }
  }

  lemma FailingTells(tag: string, t: Track, u: Track)
    requires IsTag(tag) && t.failStreak >= 0 && u.failStreak >= 0
    requires StateOf(t) == Failing && StateOf(u) == Failing && Part(tag, t) == Part(tag, u)
    ensures t.failStreak == u.failStreak && t.gatewayReachable == u.gatewayReachable
  {
    FailingPart(tag, t);
    FailingPart(tag, u);
    var x, y := if t.gatewayReachable then GATEWAY else "", if u.gatewayReachable then GATEWAY else "";
    SameSplit(tag + ":", Decimal(t.failStreak) + [' '] + (LOSSES + x),
              tag + ":", Decimal(u.failStreak) + [' '] + (LOSSES + y), ' ');
    DecimalDigits(t.failStreak);
    DecimalDigits(u.failStreak);
    SameSplit(Decimal(t.failStreak), LOSSES + x, Decimal(u.failStreak), LOSSES + y, ' ');
    DecimalInjective(t.failStreak, u.failStreak);
    assert |LOSSES + x| == |LOSSES| + |x| && |LOSSES + y| == |LOSSES| + |y|;
    assert |GATEWAY| == 20;
  }

  /** A part starts with its tag and holds no comma. */
  lemma PartShape(tag: string, t: Track)
    requires IsTag(tag) && StateOf(t) != NoLocalAddress && t.failStreak >= 0
    ensures |Part(tag, t)| > 2 && Part(tag, t)[..2] == tag
    ensures Free(Part(tag, t), ',')
  {
    if StateOf(t) == Healthy {
      HealthyPart(tag, t);
      assert Free(tag, ',') && Free("connected", ',');
    } else {
      FailingPart(tag, t);
      DecimalDigits(t.failStreak);
      assert Free(tag + ":", ',') && Free(LOSSES, ',') && Free(GATEWAY, ',');
    }
  }

  // ---------- The whole text ----------

  /** The text behind the caption. */
  function Rest(v4: Track, v6: Track): string {
    var four, six := StateOf(v4) != NoLocalAddress, StateOf(v6) != NoLocalAddress;
    if four && six then Part("v4", v4) + [','] + ([' '] + Part("v6", v6))
    else if four then Part("v4", v4)
    else if six then Part("v6", v6)
    else "no target resolved"
  }

  lemma StatusIsRest(caption: string, v4: Track, v6: Track)
    ensures StatusTextFor(caption, v4, v6) == (caption + ": ") + Rest(v4, v6)
  {
    hide ProtoStatusText, StateOf;
    assert ": no target resolved" == ": " + "no target resolved";
    assert ", " == [','] + [' '];
  }

  lemma RestShape(v4: Track, v6: Track)
    requires TrackOk(v4) && TrackOk(v6)
    ensures |Rest(v4, v6)| > 2
    ensures StateOf(v4) != NoLocalAddress ==> Rest(v4, v6)[..2] == "v4"
    ensures StateOf(v4) == NoLocalAddress && StateOf(v6) != NoLocalAddress ==> Rest(v4, v6)[..2] == "v6"
    ensures StateOf(v4) == NoLocalAddress && StateOf(v6) == NoLocalAddress ==> Rest(v4, v6)[..2] == "no"
  {
    if StateOf(v4) != NoLocalAddress {
      PartShape("v4", v4);
    }
    if StateOf(v6) != NoLocalAddress {
      PartShape("v6", v6);
    }
    hide ProtoStatusText, StateOf;
    assert "no target resolved"[..2] == "no";
    if StateOf(v4) != NoLocalAddress && StateOf(v6) != NoLocalAddress {
      assert Rest(v4, v6)[..2] == Part("v4", v4)[..2];
    }
  }

  lemma TagsDiffer()
    ensures "v4" != "v6" && "v4" != "no" && "v6" != "no"
  {
    assert "v4"[1] != "v6"[1] && "v4"[0] != "no"[0] && "v6"[0] != "no"[0];
  }

  lemma BothTell(v4: Track, v6: Track, u4: Track, u6: Track)
    requires TrackOk(v4) && TrackOk(v6) && TrackOk(u4) && TrackOk(u6)
    requires StateOf(v4) != NoLocalAddress && StateOf(u4) != NoLocalAddress
    requires Rest(v4, v6) == Rest(u4, u6)
    ensures SeenOf(v4) == SeenOf(u4) && SeenOf(v6) == SeenOf(u6)
  {
    hide ProtoStatusText;
    PartShape("v4", v4);
    PartShape("v4", u4);
    var six, six' := StateOf(v6) != NoLocalAddress, StateOf(u6) != NoLocalAddress;
    if six && six' {
      SameSplit(Part("v4", v4), [' '] + Part("v6", v6), Part("v4", u4), [' '] + Part("v6", u6), ',');
      assert ([' '] + Part("v6", v6))[1..] == Part("v6", v6) && ([' '] + Part("v6", u6))[1..] == Part("v6", u6);
      PartTells("v6", v6, u6);
    }
    if six && !six' {
      NoSplit(Part("v4", v4), [' '] + Part("v6", v6), Part("v4", u4), ',');
    }
    if !six && six' {
      NoSplit(Part("v4", u4), [' '] + Part("v6", u6), Part("v4", v4), ',');
    }
    PartTells("v4", v4, u4);
  }

  /** What the part of an active protocol reads. */
  ghost predicate Says(part: string, tag: string, t: Track) {
    if t.failStreak == 0 then part == tag + " connected"
    else
      var suffix := if t.gatewayReachable then " (gateway reachable)" else "";
      exists digits :: IsNumeral(digits, t.failStreak) && part == tag + ": " + digits + " consecutive losses" + suffix
  }

  lemma PartSays(tag: string, t: Track)
    requires TrackOk(t) && StateOf(t) != NoLocalAddress
    ensures Says(Part(tag, t), tag, t)
  {
    DecimalIsNumeral(t.failStreak);
  }

  /** The whole text, word for word. */
  lemma StatusSays(caption: string, v4: Track, v6: Track) returns (four: string, six: string)
    requires TrackOk(v4) && TrackOk(v6)
    ensures Active(v4) ==> Says(four, "v4", v4)
    ensures Active(v6) ==> Says(six, "v6", v6)
    ensures StatusTextFor(caption, v4, v6) ==
            caption + ": " +
            if Active(v4) && Active(v6) then four + ", " + six
            else if Active(v4) then four
            else if Active(v6) then six
            else "no target resolved"
  {
    four, six := Part("v4", v4), Part("v6", v6);
    if Active(v4) {
      PartSays("v4", v4);
    }
    if Active(v6) {
      PartSays("v6", v6);
    }
    hide ProtoStatusText, Says;
    assert ": no target resolved" == ": " + "no target resolved";
    assert four + ", " + six == four + (", " + six);
  }

  /** Equal status texts, under one caption, show equal losses and gateways of the same protocols. */
  lemma StatusTellsTracks(caption: string, v4: Track, v6: Track, u4: Track, u6: Track)
    requires TrackOk(v4) && TrackOk(v6) && TrackOk(u4) && TrackOk(u6)
    ensures StatusTextFor(caption, v4, v6) == StatusTextFor(caption, u4, u6) <==>
            SeenOf(v4) == SeenOf(u4) && SeenOf(v6) == SeenOf(u6)
  {
    StatusIsRest(caption, v4, v6);
    StatusIsRest(caption, u4, u6);
    if SeenOf(v4) == SeenOf(u4) && SeenOf(v6) == SeenOf(u6) {
      SameRest(v4, v6, u4, u6);
    }
    if StatusTextFor(caption, v4, v6) == StatusTextFor(caption, u4, u6) {
      hide StatusTextFor, ProtoStatusText;
      var n := |caption + ": "|;
      assert ((caption + ": ") + Rest(v4, v6))[n..] == Rest(v4, v6);
      assert ((caption + ": ") + Rest(u4, u6))[n..] == Rest(u4, u6);
      RestShape(v4, v6);
      RestShape(u4, u6);
      TagsDiffer();
      if StateOf(v4) != NoLocalAddress {
        BothTell(v4, v6, u4, u6);
      } else if StateOf(v6) != NoLocalAddress {
        PartTells("v6", v6, u6);
      }
    }
  }

  lemma SameRest(v4: Track, v6: Track, u4: Track, u6: Track)
    requires TrackOk(v4) && TrackOk(v6) && TrackOk(u4) && TrackOk(u6)
    requires SeenOf(v4) == SeenOf(u4) && SeenOf(v6) == SeenOf(u6)
    ensures Rest(v4, v6) == Rest(u4, u6)
  {
  }
}
