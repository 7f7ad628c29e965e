/** One protocol's loss-streak machine: ProtoTrack and the per-protocol half of ping_monitor_tick.cpp. */
module ProtoTrack {
  import opened Options

  const GATEWAY_CHECK := 10
  const SOCKET_RECREATE := 10
  const RECHECK_TICKS := 10

  datatype Mode = Auto | Fixed | Disabled
  datatype Severity = Green | Blue | Yellow | Red
  datatype ProtoState = NoLocalAddress | Failing | Healthy

  datatype Track = Track(
    configured: bool,
    sock: int,
    failStreak: int,
    hasLocalAddress: bool,
    recheckTicksLeft: int,
    mode: Mode,
    gatewayIp: string,
    gatewayResolved: bool,
    gatewayReachable: bool)

  /** What the network would answer this tick to each question the monitor may ask. */
  datatype Input = Input(hasAddress: bool, targetReply: bool, newSock: int, route: Option<string>, gatewayReply: bool)

  /** A call whose answer the monitor acts on, with that answer; no answer in time is `ok == false`. */
  datatype Call = Address(found: bool) | Route(gateway: Option<string>) | Pinged(ip: string, ok: bool)

  /** What the monitor did in a tick. */
  datatype Effect = Effect(addressAsked: bool, active: bool, ok: bool, reopened: bool, resolved: bool, gatewayOk: bool)

  /** A track as the constructor leaves it: gateway override applied, `sock` opened (-1 if not). */
  function FreshTrack(configured: bool, mode: Mode, fixedIp: string, sock: int): Track {
    Track(configured, sock, 0, false, 0, mode, if mode == Fixed then fixedIp else "", mode == Fixed, false)
  }

  // ---------- The code ----------

  function Recheck(t: Track, hasAddress: bool): Track {
    if !t.configured || t.hasLocalAddress then t
    else if t.recheckTicksLeft > 0 then t.(recheckTicksLeft := t.recheckTicksLeft - 1)
    else t.(hasLocalAddress := hasAddress, recheckTicksLeft := RECHECK_TICKS)
  }

  predicate AsksAddress(t: Track) {
    t.configured && !t.hasLocalAddress && t.recheckTicksLeft <= 0
  }

  function AfterGatewayCheck(t: Track, route: Option<string>, reply: bool): Track {
    if t.mode == Disabled then t.(gatewayReachable := false)
    else
      var r := if t.gatewayResolved then t
               else t.(gatewayResolved := true, gatewayIp := if route.Some? then route.value else t.gatewayIp);
      r.(gatewayReachable := r.gatewayIp != "" && r.sock >= 0 && reply)
  }

  /** One more loss, and a new socket on every tenth. */
  function Counted(t: Track, newSock: int): Track {
    var failed := t.(failStreak := t.failStreak + 1);
    if failed.failStreak % SOCKET_RECREATE == 0 then failed.(sock := newSock) else failed
  }

  function AfterLoss(t: Track, input: Input): Track {
    var rebound := Counted(t, input.newSock);
    if rebound.failStreak >= GATEWAY_CHECK then AfterGatewayCheck(rebound, input.route, input.gatewayReply) else rebound
  }

  /** The calls of checkGateway, in order. */
  function CallsOfCheck(t: Track, route: Option<string>, reply: bool): seq<Call> {
    var address := AddressAfter(t, route);
    if t.mode == Disabled then []
    else
      (if t.gatewayResolved then [] else [Route(route)])
      + (if address != "" && t.sock >= 0 then [Pinged(address, reply)] else [])
  }

  /** The gateway address once it has been looked up, if it had to be. */
  function AddressAfter(t: Track, route: Option<string>): string {
    if !t.gatewayResolved && route.Some? then route.value else t.gatewayIp
  }

  function TickTrack(t: Track, input: Input): Track {
    var r := Recheck(t, input.hasAddress);
    if !r.configured || !r.hasLocalAddress then r
    else if r.sock >= 0 && input.targetReply then r.(failStreak := 0, gatewayReachable := false)
    else AfterLoss(r, input)
  }

  /** The calls a loss leads to. */
  function CallsOnLoss(t: Track, input: Input): seq<Call> {
    var rebound := Counted(t, input.newSock);
    if rebound.failStreak >= GATEWAY_CHECK then CallsOfCheck(rebound, input.route, input.gatewayReply) else []
  }

  /** One call when `made`, else none. */
  function Once(made: bool): nat {
    if made then 1 else 0
  }

  /** The tick pings its target and gets no answer. */
  predicate Loses(t: Track, input: Input) {
    var r := Recheck(t, input.hasAddress);
    r.configured && r.hasLocalAddress && !(r.sock >= 0 && input.targetReply)
  }

  predicate Reopens(t: Track, input: Input) {
    Loses(t, input) && (t.failStreak + 1) % SOCKET_RECREATE == 0
  }

  predicate ChecksGateway(t: Track, input: Input) {
    Loses(t, input) && t.failStreak + 1 >= GATEWAY_CHECK && t.mode != Disabled
  }

  /** The socket the gateway is pinged from: a tenth loss has replaced it by then. */
  function SocketAfter(t: Track, input: Input): int {
    if Reopens(t, input) then input.newSock else t.sock
  }

  /** The gateway a tick asks, after looking it up if need be; none when there is nothing to ask. */
  function GatewayAsked(t: Track, input: Input): Option<string> {
    var address := AddressAfter(t, input.route);
    if ChecksGateway(t, input) && address != "" && SocketAfter(t, input) >= 0 then Some(address) else None
  }

  /** All calls of a tick, in order: which are made, with which arguments, and what they answer. */
  function CallsIn(targetIp: string, t: Track, input: Input): seq<Call> {
    var r := Recheck(t, input.hasAddress);
    (if AsksAddress(t) then [Address(input.hasAddress)] else [])
    + (if r.configured && r.hasLocalAddress && r.sock >= 0 then [Pinged(targetIp, input.targetReply)] else [])
    + (if ChecksGateway(t, input) && !t.gatewayResolved then [Route(input.route)] else [])
    + (match GatewayAsked(t, input) case Some(ip) => [Pinged(ip, input.gatewayReply)] case None => [])
  }

  function EffectOf(t: Track, input: Input): Effect {
    var r := Recheck(t, input.hasAddress);
    var active := r.configured && r.hasLocalAddress;
    Effect(AsksAddress(t), active, active && r.sock >= 0 && input.targetReply,
           Reopens(t, input),
           ChecksGateway(t, input) && !t.gatewayResolved,
           GatewayAsked(t, input).Some? && input.gatewayReply)
  }

  function StateOf(t: Track): ProtoState {
    if !t.configured || !t.hasLocalAddress then NoLocalAddress
    else if t.failStreak == 0 then Healthy else Failing
  }

  function SeverityOf(t: Track): Severity {
    if t.failStreak < GATEWAY_CHECK then Yellow else if t.gatewayReachable then Blue else Red
  }

  // ---------- Invariant ----------

  predicate TrackOk(t: Track) {
    && t.failStreak >= 0
    && 0 <= t.recheckTicksLeft <= RECHECK_TICKS
    && (t.hasLocalAddress ==> t.configured)
    && (!t.hasLocalAddress ==> t.failStreak == 0)
    && (t.gatewayReachable ==> t.failStreak >= GATEWAY_CHECK && t.mode != Disabled)
    && (t.gatewayReachable ==> t.gatewayResolved && t.gatewayIp != "" && t.sock >= 0)
    && (t.mode == Fixed ==> t.gatewayResolved)
    && (t.mode == Disabled ==> !t.gatewayResolved)
  }

  lemma FreshOk(configured: bool, mode: Mode, fixedIp: string, sock: int)
    ensures TrackOk(FreshTrack(configured, mode, fixedIp, sock))
  {
  }

  lemma TickOk(t: Track, input: Input)
    requires TrackOk(t)
    ensures TrackOk(TickTrack(t, input))
  {
  }

  // ---------- The object ----------

  /** The descriptors of the process; closing one that is not open would be an error. */
  class Descriptors {
    var open: set<int>
    ghost var opens: nat // successful and failed calls of socket()

    constructor ()
      ensures open == {} && opens == 0
    {
      open, opens := {}, 0;
    }

    method Close(fd: int)
      requires fd in open
      modifies this
      ensures open == old(open) - {fd} && opens == old(opens)
    {
      open := open - {fd};
    }

    /** Any descriptor not in use, the one just closed included, or -1. */
    method Socket() returns (fd: int)
      modifies this
      ensures fd < 0 || fd !in old(open)
      ensures open == (if fd >= 0 then old(open) + {fd} else old(open)) && opens == old(opens) + 1
    {
      var choice: int := *;
      fd := if choice in open || choice < 0 then -1 else choice;
      if fd >= 0 {
        open := open + {fd};
      }
      opens := opens + 1;
    }
  }

  /** The descriptors a protocol holds. */
  function Holds(sock: int): set<int> {
    if sock >= 0 then {sock} else {}
  }

  class Proto {
    const fds: Descriptors
    const configured: bool
    const mode: Mode
    const targetIp: string
    ghost var log: seq<Call> // every call made, with its answer
    var sock: int
    var failStreak: int
    var hasLocalAddress: bool
    var recheckTicksLeft: int
    var gatewayIp: string
    var gatewayResolved: bool
    var gatewayReachable: bool

    constructor (fds: Descriptors, configured: bool, targetIp: string, mode: Mode, fixedIp: string)
      ensures this.fds == fds && this.targetIp == targetIp && View() == FreshTrack(configured, mode, fixedIp, -1)
      ensures log == []
    {
      this.fds, this.configured, this.targetIp, this.mode := fds, configured, targetIp, mode;
      log := [];
      sock, failStreak, hasLocalAddress, recheckTicksLeft := -1, 0, false, 0;
      gatewayIp := if mode == Fixed then fixedIp else "";
      gatewayResolved, gatewayReachable := mode == Fixed, false;
    }

    function View(): Track
      reads this
    {
      Track(configured, sock, failStreak, hasLocalAddress, recheckTicksLeft,
            mode, gatewayIp, gatewayResolved, gatewayReachable)
    }

    /** openSocket4 / openSocket6. */
    method OpenSocket()
      requires Holds(sock) <= fds.open
      modifies this`sock, fds
      ensures View() == old(View()).(sock := sock)
      ensures Rebound(old(fds.open), old(sock), fds.open, sock)
      ensures fds.opens == old(fds.opens) + 1
    {
      if sock >= 0 {
        fds.Close(sock);
      }
      sock := fds.Socket();
    }

    /** sendPing on this protocol's socket and recvReply: no socket, no reply. */
    method Ping(ip: string) returns (ok: bool, ghost reply: bool)
      modifies this`log
      ensures ok == (sock >= 0 && reply)
      ensures log == old(log) + if sock >= 0 then [Pinged(ip, reply)] else []
    {
      if sock < 0 {
        return false, false;
      }
      var answer: bool := *;
      log := log + [Pinged(ip, answer)];
      return answer, answer;
    }

    /** Whether the interface has an address of this family just now. */
    method IfaceHasAddress() returns (found: bool)
      modifies this`log
      ensures log == old(log) + [Address(found)]
    {
      found := *;
      log := log + [Address(found)];
    }

    /** The default route's gateway just now, if there is one. */
    method ResolveGateway() returns (gw: Option<string>)
      modifies this`log
      ensures log == old(log) + [Route(gw)]
    {
      gw := *;
      log := log + [Route(gw)];
    }

    method MaybeRecheckLocalAddress() returns (ghost hasAddress: bool)
      modifies this`hasLocalAddress, this`recheckTicksLeft, this`log
      ensures View() == Recheck(old(View()), hasAddress)
      ensures log == old(log) + if AsksAddress(old(View())) then [Address(hasAddress)] else []
    {
      hasAddress := false;
      if !configured || hasLocalAddress {
        return;
      }
      if recheckTicksLeft > 0 {
        recheckTicksLeft := recheckTicksLeft - 1;
        return;
      }
      var found := IfaceHasAddress();
      hasAddress := found;
      hasLocalAddress := found;
      recheckTicksLeft := RECHECK_TICKS;
    }

    /** checkGateway4 / checkGateway6. */
    method CheckGateway() returns (ghost route: Option<string>, ghost reply: bool)
      modifies this`gatewayIp, this`gatewayResolved, this`gatewayReachable, this`log
      ensures View() == AfterGatewayCheck(old(View()), route, reply)
      ensures log == old(log) + CallsOfCheck(old(View()), route, reply)
    {
      route, reply := None, false;
      if mode == Disabled {
        gatewayReachable := false;
        return;
      }
      if !gatewayResolved {
        gatewayResolved := true;
        var gw := ResolveGateway();
        route := gw;
        if gw.Some? {
          gatewayIp := gw.value;
        }
      }
      if gatewayIp == "" {
        gatewayReachable := false;
        return;
      }
      var ok;
      ok, reply := Ping(gatewayIp);
      gatewayReachable := ok;
    }

    /** The first half of the branch taken when the target did not answer: count, and reopen every tenth time. */
    method CountLoss() returns (ghost newSock: int)
      requires Holds(sock) <= fds.open
      modifies this`failStreak, this`sock, fds
      ensures View() == Counted(old(View()), newSock)
      ensures Rebound(old(fds.open), old(sock), fds.open, sock)
      ensures fds.opens == old(fds.opens) + Once((old(failStreak) + 1) % SOCKET_RECREATE == 0)
    {
      hide Rebound, Holds;
      RebindNothing(fds.open, sock);
      newSock := -1;
      failStreak := failStreak + 1;
      if failStreak % SOCKET_RECREATE == 0 {
        OpenSocket();
        newSock := sock;
      }
    }

    /** The whole branch: then the gateway check, from the tenth loss on. */
    method HandleLoss(ghost asked: Input) returns (ghost input: Input)
      requires Holds(sock) <= fds.open
      modifies this, fds
      ensures View() == AfterLoss(old(View()), input)
      ensures input.hasAddress == asked.hasAddress && input.targetReply == asked.targetReply
      ensures Rebound(old(fds.open), old(sock), fds.open, sock)
      ensures fds.opens == old(fds.opens) + Once((old(failStreak) + 1) % SOCKET_RECREATE == 0)
      ensures log == old(log) + CallsOnLoss(old(View()), input)
    {
      hide AfterGatewayCheck, Rebound, Holds, CallsOfCheck;
      ghost var before := View();
      ghost var newSock := CountLoss();
      input := asked.(newSock := newSock);
      CountedFields(before, newSock);
      hide Counted;
      if failStreak >= GATEWAY_CHECK {
        ghost var route, gatewayReply := CheckGateway();
        input := input.(route := route, gatewayReply := gatewayReply);
      }
      assert failStreak < GATEWAY_CHECK ==> CallsOnLoss(before, input) == [];
    }

    /**
     * tickV4 / tickV6. `input` holds the answers of the calls made, as the log shows; the answers to
     * questions not asked are arbitrary.
     */
    method Tick() returns (ghost input: Input)
      requires Holds(sock) <= fds.open
      modifies this, fds
      ensures View() == TickTrack(old(View()), input)
      ensures Rebound(old(fds.open), old(sock), fds.open, sock)
      ensures fds.opens == old(fds.opens) + Once(EffectOf(old(View()), input).reopened)
      ensures log == old(log) + CallsIn(targetIp, old(View()), input)
    {
      hide TickTrack, AfterLoss, Rebound, CallsOnLoss, EffectOf, CallsIn, Recheck, AsksAddress, Holds, Once;
      ghost var before := View();
      RebindNothing(fds.open, sock);
      ghost var hasAddress := MaybeRecheckLocalAddress();
      ghost var asked := if AsksAddress(before) then [Address(hasAddress)] else [];
      input := Input(hasAddress, false, -1, None, false);
      RecheckKeeps(before, hasAddress);
      NoCall();
      ghost var rechecked := View();
      if !configured || !hasLocalAddress {
        TickCalls(targetIp, before, rechecked, input);
        return;
      }
      var ok;
      ghost var reply;
      ok, reply := Ping(targetIp);
      input := input.(targetReply := reply);
      ghost var pinged := if sock >= 0 then [Pinged(targetIp, reply)] else [];
      if ok {
        failStreak := 0;
        gatewayReachable := false;
      } else {
        input := HandleLoss(input);
      }
      ThreeSums(old(log), asked, pinged, if ok then [] else CallsOnLoss(rechecked, input));
      TickCalls(targetIp, before, rechecked, input);
    }
  }

  lemma ThreeSums<T>(log: seq<T>, a: seq<T>, b: seq<T>, c: seq<T>)
    ensures log + a + b + c == log + (a + b + c)
  {
  }

  lemma NoCall()
    ensures Once(false) == 0
  {
  }

  lemma RecheckKeeps(t: Track, hasAddress: bool)
    ensures Recheck(t, hasAddress).sock == t.sock
  {
  }

  lemma CountedFields(t: Track, newSock: int)
    ensures Counted(t, newSock).failStreak == t.failStreak + 1
  {
  }

  /** The calls a tick makes, seen from behind the address check. */
  lemma TickCalls(targetIp: string, t: Track, r: Track, input: Input)
    requires r == Recheck(t, input.hasAddress)
    ensures var active := r.configured && r.hasLocalAddress;
            var lost := active && !(r.sock >= 0 && input.targetReply);
            && TickTrack(t, input) == (if !active then r else if lost then AfterLoss(r, input)
                                       else r.(failStreak := 0, gatewayReachable := false))
            && EffectOf(t, input).reopened == (lost && (r.failStreak + 1) % SOCKET_RECREATE == 0)
            && CallsIn(targetIp, t, input) ==
               (if AsksAddress(t) then [Address(input.hasAddress)] else [])
               + (if active && r.sock >= 0 then [Pinged(targetIp, input.targetReply)] else [])
               + (if lost then CallsOnLoss(r, input) else [])
  {
    LossCalls(t, r, input);
    hide GatewayAsked, ChecksGateway, CallsOnLoss, AsksAddress, AfterLoss, Recheck;
  }

  /** The calls of a loss are the gateway's, seen from before the tick. */
  lemma LossCalls(t: Track, r: Track, input: Input)
    requires r == Recheck(t, input.hasAddress)
    ensures (if ChecksGateway(t, input) && !t.gatewayResolved then [Route(input.route)] else [])
            + (match GatewayAsked(t, input) case Some(ip) => [Pinged(ip, input.gatewayReply)] case None => []) ==
            if Loses(t, input) then CallsOnLoss(r, input) else []
  {
  }

  /** The table gave up `before` and now holds `after`, nothing else having changed. */
  ghost predicate Rebound(openBefore: set<int>, before: int, open: set<int>, after: int) {
    && open == openBefore - Holds(before) + Holds(after)
    && Holds(after) !! openBefore - Holds(before)
  }

  lemma RebindNothing(open: set<int>, sock: int)
    requires Holds(sock) <= open
    ensures Rebound(open, sock, open, sock)
  {
  }
}
