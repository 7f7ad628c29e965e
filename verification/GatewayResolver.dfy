/** gateway_resolver.cpp: the default gateway of one interface, from an RTM_GETROUTE dump. */
module GatewayResolver {
  import opened Options
  import opened Bytes
  import opened Netlink
  import opened Sockets

  const AF_INET: byte := 2
  const AF_INET6: byte := 10
  const RTA_OIF: u16 := 4
  const RTA_GATEWAY: u16 := 5
  const RTMSG := 12

  /** A gateway is its address bytes; inet_ntop turns them into text. */
  type Gateway = seq<byte>

  function AddressLength(family: byte): Option<nat> {
    if family == AF_INET then Some(4) else if family == AF_INET6 then Some(16) else None
  }

  /** Four bytes for AF_INET (2), sixteen for AF_INET6 (10). */
  predicate IsAddress(family: byte, address: seq<byte>) {
    (family == 2 && |address| == 4) || (family == 10 && |address| == 16)
  }

  /** A route message has its rtmsg, and its output interface is an `int`. */
  predicate WellFormed(m: Message) {
    m.kind == RTM_NEWROUTE ==>
      && |m.body| >= RTMSG
      && forall a | a in Attrs(m.body[RTMSG..]) :: a.kind == RTA_OIF ==> |a.payload| >= 4
  }

  /** The interface a route leaves by: its last OIF attribute, -1 when it has none. */
  function OutputInterface(attrs: seq<Attr>): int {
    match LastAttr(attrs, RTA_OIF)
    case None => -1
    case Some(p) => if |p| >= 4 then I32At(p, 0) else -1
  }

  /** The next hop a route message names for `family` over `ifindex`, if it is such a default route. */
  function DefaultGateway(family: byte, ifindex: int, m: Message): Option<Gateway> {
    if m.kind != RTM_NEWROUTE || |m.body| < RTMSG || m.body[0] != family || m.body[1] != 0 then None
    else
      var attrs := Attrs(m.body[RTMSG..]);
      match LastAttr(attrs, RTA_GATEWAY)
      case None => None
      case Some(p) =>
        if OutputInterface(attrs) == ifindex && AddressLength(family) == Some(|p|) then Some(p) else None
  }

  predicate Ends(m: Message) {
    m.kind == NLMSG_DONE || m.kind == NLMSG_ERROR
  }

  predicate Finished(ms: seq<Message>) {
    exists m | m in ms :: Ends(m)
  }

  /** The answer a message stream asks for: the last default gateway before the dump's end. */
  function StreamGateway(family: byte, ifindex: int, ms: seq<Message>): Option<Gateway> {
    if ms == [] || Ends(ms[0]) then None
    else
      var later := StreamGateway(family, ifindex, ms[1..]);
      if later.Some? then later else DefaultGateway(family, ifindex, ms[0])
  }

  function Latest(first: Option<Gateway>, second: Option<Gateway>): Option<Gateway> {
    if second.Some? then second else first
  }

  class Resolver {
    const family: byte
    const ifindex: int

    constructor (family: byte, ifindex: int)
      ensures this.family == family && this.ifindex == ifindex
    {
      this.family, this.ifindex := family, ifindex;
    }

    method FormatGateway(address: seq<byte>) returns (gw: Option<Gateway>)
      ensures gw == if IsAddress(family, address) then Some(address) else None
    {
      if family == AF_INET && |address| == 4 {
        return Some(address);
      } else if family == AF_INET6 && |address| == 16 {
        return Some(address);
      }
      return None;
    }

    method ParseDefaultRouteGateway(data: array<byte>, nlh: nat, ghost m: Message) returns (gw: Option<Gateway>)
      requires nlh + NLMSG_HDRLEN <= data.Length
      requires NLMSG_HDRLEN <= Load32(data, nlh) <= data.Length - nlh
      requires m.kind == RTM_NEWROUTE && m.body == data[nlh + 16..nlh + Load32(data, nlh)] && WellFormed(m)
      ensures gw == DefaultGateway(family, ifindex, m)
      ensures ifindex >= 0 ==> IsNextHop(family, ifindex, m, gw)
    {
      hide DefaultGateway, IsNextHop, Attrs, LastAttr, OutputInterface, IsAddress, WellFormed, Load32;
      NamedExactly(family, ifindex, m);
      RouteAt(data, nlh, m);
      GatewayOf(family, ifindex, m);
      var end := nlh + Load32(data, nlh);
      if data[nlh + 16] != family || data[nlh + 17] != 0 {
        return None;
      }
      var oif, gateway := ScanAttributes(data, nlh + 28, end);
      if oif != ifindex || gateway == None {
        return None;
      }
      gw := FormatGateway(gateway.value);
    }

    /** Scans one received batch; `n` is signed, so a batch of any length is safe. */
    method ScanBatch(buf: array<byte>, n: nat, done: bool) returns (result: Option<Gateway>, done': bool)
      requires n <= buf.Length
      requires forall m | m in Messages(buf[..n]) :: WellFormed(m)
      ensures result == StreamGateway(family, ifindex, Messages(buf[..n]))
      ensures done' == (done || Finished(Messages(buf[..n])))
    {
      hide Messages, StreamGateway, DefaultGateway, Finished, WellFormed, Load32, Load16, Align4;
      result, done' := None, done;
      var left: int := n;
      var nlh: nat := 0;
      ghost var cur := buf[..n];
      while left >= NLMSG_HDRLEN && NLMSG_HDRLEN <= Load32(buf, nlh) <= left
        invariant if left > 0 then nlh + left == n && cur == buf[nlh..n] else cur == []
        invariant forall m | m in Messages(cur) :: WellFormed(m)
        invariant StreamGateway(family, ifindex, Messages(buf[..n])) ==
                  Latest(result, StreamGateway(family, ifindex, Messages(cur)))
        invariant Finished(Messages(buf[..n])) == Finished(Messages(cur)) && done' == done
        decreases left
      {
        var len := Load32(buf, nlh);
        MessageAt(buf, nlh, n);
        ghost var m := NlmsgHead(cur);
        StreamStep(family, ifindex, cur);
        if Load16(buf, nlh + 4) == NLMSG_DONE || Load16(buf, nlh + 4) == NLMSG_ERROR {
          return result, true;
        }
        if Load16(buf, nlh + 4) == RTM_NEWROUTE {
          var gw := ParseDefaultRouteGateway(buf, nlh, m);
          if gw.Some? {
            result := gw;
          }
        } else {
          NoRoute(family, ifindex, m);
        }
        left, nlh := left - Align4(len), nlh + Align4(len);
        cur := NlmsgNext(cur);
        assert left == 0 ==> cur == [];
      }
      if left >= NLMSG_HDRLEN {
        MessageAt(buf, nlh, n);
      }
      StreamEnd(family, ifindex, cur);
    }

    /** Receives batches until the dump ends or a receive fails. */
    method Drain(sock: DatagramSocket) returns (result: Option<Gateway>)
      requires forall b | b in sock.inbox :: GoodBatch(b)
      modifies sock
      ensures result == StreamGateway(family, ifindex, Stream(UntilEmpty(old(sock.inbox))))
      ensures sock.inbox == Undrained(old(sock.inbox))
    {
      hide Messages, Stream, StreamGateway, GoodBatch, Finished, Received, Undrained;
      result := None;
      var buf := new byte[RECV_BUFFER];
      var done := false;
      ghost var answer := StreamGateway(family, ifindex, Stream(UntilEmpty(sock.inbox)));
      while !done
        invariant forall b | b in sock.inbox :: GoodBatch(b)
        invariant answer == if done then result
                            else Latest(result, StreamGateway(family, ifindex, Stream(UntilEmpty(sock.inbox))))
        invariant Undrained(old(sock.inbox)) == if done then sock.inbox else Undrained(sock.inbox)
        decreases |sock.inbox|, if done then 0 else 1
      {
        ghost var pending := sock.inbox;
        DrainStep(family, ifindex, pending);
        var n := sock.Recv(buf);
        if n <= 0 {
          break;
        }
        var gw;
        gw, done := ScanBatch(buf, n, done);
        if gw.Some? {
          result := gw;
        }
      }
    }
  }

  /** The kernel's promise about one batch of a route dump. */
  ghost predicate GoodBatch(batch: seq<byte>) {
    forall m | m in Messages(Received(batch, RECV_BUFFER)) :: WellFormed(m)
  }

  /** The batches a dump's reader leaves: it takes them up to a failed or empty receive, or the one with the end. */
  function Undrained(batches: seq<seq<byte>>): seq<seq<byte>> {
    if batches == [] then []
    else if batches[0] == [] || Finished(Messages(Received(batches[0], RECV_BUFFER))) then batches[1..]
    else Undrained(batches[1..])
  }

  lemma StreamStep(family: byte, ifindex: int, b: seq<byte>)
    requires NlmsgOk(b)
    ensures NlmsgHead(b) in Messages(b) && forall m | m in Messages(NlmsgNext(b)) :: m in Messages(b)
    ensures StreamGateway(family, ifindex, Messages(b)) ==
            if Ends(NlmsgHead(b)) then None
            else Latest(DefaultGateway(family, ifindex, NlmsgHead(b)),
                        StreamGateway(family, ifindex, Messages(NlmsgNext(b))))
    ensures Finished(Messages(b)) == (Ends(NlmsgHead(b)) || Finished(Messages(NlmsgNext(b))))
  {
    hide DefaultGateway;
    var ms := Messages(b);
    assert ms[0] == NlmsgHead(b) && ms[1..] == Messages(NlmsgNext(b));
    assert forall m | m in ms :: m == ms[0] || m in ms[1..];
  }

  lemma StreamEnd(family: byte, ifindex: int, b: seq<byte>)
    requires !NlmsgOk(b)
    ensures StreamGateway(family, ifindex, Messages(b)) == None && !Finished(Messages(b))
  {
  }

  lemma NoRoute(family: byte, ifindex: int, m: Message)
    requires m.kind != RTM_NEWROUTE
    ensures DefaultGateway(family, ifindex, m) == None
  {
  }

  lemma {:induction false} StreamConcat(family: byte, ifindex: int, a: seq<Message>, b: seq<Message>)
    ensures StreamGateway(family, ifindex, a + b) ==
            if Finished(a) then StreamGateway(family, ifindex, a)
            else Latest(StreamGateway(family, ifindex, a), StreamGateway(family, ifindex, b))
  {
    hide DefaultGateway;
    if a == [] {
      assert a + b == b;
    } else {
      StreamConcat(family, ifindex, a[1..], b);
      assert (a + b)[1..] == a[1..] + b;
      assert forall m | m in a :: m == a[0] || m in a[1..];
    }
  }

  lemma DrainStep(family: byte, ifindex: int, pending: seq<seq<byte>>)
    requires forall b | b in pending :: GoodBatch(b)
    ensures var left := StreamGateway(family, ifindex, Stream(UntilEmpty(pending)));
            if pending == [] || Received(pending[0], RECV_BUFFER) == [] then
              left == None && Undrained(pending) == if pending == [] then [] else pending[1..]
            else
              var ms := Messages(Received(pending[0], RECV_BUFFER));
              && (forall m | m in ms :: WellFormed(m))
              && Undrained(pending) == (if Finished(ms) then pending[1..] else Undrained(pending[1..]))
              && left == if Finished(ms) then StreamGateway(family, ifindex, ms)
                         else Latest(StreamGateway(family, ifindex, ms),
                                     StreamGateway(family, ifindex, Stream(UntilEmpty(pending[1..]))))
  {
    hide DefaultGateway, WellFormed;
    if pending != [] && pending[0] != [] {
      assert GoodBatch(pending[0]);
      StreamConcat(family, ifindex, Messages(Received(pending[0], RECV_BUFFER)), Stream(UntilEmpty(pending[1..])));
      assert UntilEmpty(pending)[1..] == UntilEmpty(pending[1..]);
    }
  }

  /** The attribute loop of parseDefaultRouteGateway: later attributes overwrite earlier ones. */
  method ScanAttributes(data: array<byte>, start: nat, end: nat) returns (oif: int, gateway: Option<seq<byte>>)
    requires start <= end <= data.Length
    requires forall a | a in Attrs(data[start..end]) :: a.kind == RTA_OIF ==> |a.payload| >= 4
    ensures oif == OutputInterface(Attrs(data[start..end]))
    ensures gateway == LastAttr(Attrs(data[start..end]), RTA_GATEWAY)
  {
    hide Attrs, LastAttr, OutputInterface, Load16, Align4, I32At;
    oif, gateway := -1, None;
    var attrLen: int := end - start;
    var rta: nat := start;
    ghost var seen: seq<Attr> := [];
    ghost var cur := data[start..end];
    NothingSeen();
    while attrLen >= RTA_HDRLEN && RTA_HDRLEN <= Load16(data, rta) <= attrLen
      invariant if attrLen > 0 then rta + attrLen == end && cur == data[rta..end] else cur == []
      invariant Attrs(data[start..end]) == seen + Attrs(cur)
      invariant oif == OutputInterface(seen) && gateway == LastAttr(seen, RTA_GATEWAY)
      decreases attrLen
    {
      var len := Load16(data, rta);
      AttrsAtStep(data, rta, end);
      ghost var a := Attr(Load16(data, rta + 2), data[rta + 4..rta + len]);
      assert a in Attrs(data[start..end]);
      Seen(seen, a);
      if Load16(data, rta + 2) == RTA_OIF {
        oif := LoadI32(data, rta + 4);
        LoadIsRead(data, rta + 4, rta + len);
      } else if Load16(data, rta + 2) == RTA_GATEWAY {
        gateway := Some(data[rta + 4..rta + len]);
      }
      seen := seen + [a];
      attrLen, rta := attrLen - Align4(len), rta + Align4(len);
      cur := if attrLen > 0 then data[rta..end] else [];
    }
    if attrLen >= RTA_HDRLEN {
      AttrAt(data, rta, end);
    }
    NoAttrs(cur);
    assert seen + [] == seen;
  }

  lemma NothingSeen()
    ensures OutputInterface([]) == -1 && LastAttr([], RTA_GATEWAY) == None
  {
  }

  lemma NoAttrs(b: seq<byte>)
    requires !RtaOk(b)
    ensures Attrs(b) == []
  {
  }

  lemma LoadIsRead(data: array<byte>, at: nat, end: nat)
    requires at + 4 <= end <= data.Length
    ensures LoadI32(data, at) == I32At(data[at..end], 0)
  {
  }

  lemma Seen(seen: seq<Attr>, a: Attr)
    ensures OutputInterface(seen + [a]) ==
            if a.kind == RTA_OIF then (if |a.payload| >= 4 then I32At(a.payload, 0) else -1) else OutputInterface(seen)
    ensures LastAttr(seen + [a], RTA_GATEWAY) ==
            if a.kind == RTA_GATEWAY then Some(a.payload) else LastAttr(seen, RTA_GATEWAY)
  {
    assert (seen + [a])[..|seen|] == seen;
  }

  lemma AttrsAtStep(data: array<byte>, rta: nat, end: nat)
    requires rta + RTA_HDRLEN <= end <= data.Length && RTA_HDRLEN <= Load16(data, rta) <= end - rta
    ensures var len := Load16(data, rta);
            var next := rta + Align4(len);
            Attrs(data[rta..end]) == [Attr(Load16(data, rta + 2), data[rta + 4..rta + len])]
                                     + Attrs(if next < end then data[next..end] else [])
  {
    AttrAt(data, rta, end);
    if rta + Align4(Load16(data, rta)) == end {
      assert data[end..end] == [];
    }
  }

  // ---------- What the answers mean ----------

  /**
   * However a dump is cut into received batches, and whatever arrives behind its DONE or ERROR, the
   * answer is that of its messages alone: any two inboxes of one dump give Drain the same result.
   */
  lemma BatchIndependence(
    family: byte, ifindex: int, ms: seq<Message>,
    one: seq<seq<byte>>, behind: seq<seq<byte>>, other: seq<seq<byte>>, behind': seq<seq<byte>>)
    requires Delivers(one, ms) && Delivers(other, ms)
    requires Finished(ms) || (behind == [] && behind' == [])
    ensures StreamGateway(family, ifindex, Stream(UntilEmpty(one + behind))) == StreamGateway(family, ifindex, ms)
    ensures StreamGateway(family, ifindex, Stream(UntilEmpty(other + behind'))) == StreamGateway(family, ifindex, ms)
  {
    hide Delivers, Finished;
    DeliveredStream(one, ms, behind);
    DeliveredStream(other, ms, behind');
    StreamConcat(family, ifindex, ms, Stream(UntilEmpty(behind)));
    StreamConcat(family, ifindex, ms, Stream(UntilEmpty(behind')));
  }

  /** How many messages come before the first DONE or ERROR. */
  function Live(ms: seq<Message>): (n: nat)
    ensures n <= |ms| && !Finished(ms[..n])
    ensures n < |ms| ==> ms[n].kind == 2 || ms[n].kind == 3
    ensures forall i :: 0 <= i < n ==> ms[i].kind != 2 && ms[i].kind != 3
  {
    if ms == [] || Ends(ms[0]) then 0
    else
      var n := Live(ms[1..]);
      assert ms[..n + 1] == [ms[0]] + ms[1..][..n];
      n + 1
  }

  /** A dump ends with its first ERROR (2) or DONE (3): the answer is that of the messages before it. */
  lemma {:induction false} DumpEnds(family: byte, ifindex: int, ms: seq<Message>, j: nat)
    requires j < |ms| && (ms[j].kind == 2 || ms[j].kind == 3)
    requires forall i :: 0 <= i < j ==> ms[i].kind != 2 && ms[i].kind != 3
    ensures StreamGateway(family, ifindex, ms) == StreamGateway(family, ifindex, ms[..j])
    ensures Live(ms) == j
  {
    hide DefaultGateway;
    if j > 0 {
      DumpEnds(family, ifindex, ms[1..], j - 1);
      assert ms[..j][1..] == ms[1..][..j - 1];
    }
  }

  lemma FinishedExact(ms: seq<Message>)
    ensures Finished(ms) <==> exists m :: m in ms && (m.kind == 2 || m.kind == 3)
  {
  }

  /** Whether Drain stops behind this batch: at an empty one, or one holding an ERROR (2) or DONE (3). */
  predicate Stops(batch: seq<byte>) {
    batch == [] || exists m | m in Messages(Received(batch, 8192)) :: m.kind == 2 || m.kind == 3
  }

  /** What Drain leaves unread is what lies behind the first batch that stops it. */
  lemma {:induction false} UndrainedExact(batches: seq<seq<byte>>, k: nat)
    requires k <= |batches| && forall i :: 0 <= i < k ==> !Stops(batches[i])
    requires k < |batches| ==> Stops(batches[k])
    ensures Undrained(batches) == if k < |batches| then batches[k + 1..] else []
  {
    hide Messages, Received;
    if k > 0 {
      FinishedExact(Messages(Received(batches[0], RECV_BUFFER)));
      UndrainedExact(batches[1..], k - 1);
    } else if batches != [] {
      FinishedExact(Messages(Received(batches[0], RECV_BUFFER)));
    }
  }

  /** The answer is that of the last live message naming a default gateway, none if there is no such message. */
  lemma {:induction false} StreamGatewayIsLast(family: byte, ifindex: int, ms: seq<Message>) returns (i: int)
    ensures -1 <= i < Live(ms)
    ensures forall j :: i < j < Live(ms) ==> DefaultGateway(family, ifindex, ms[j]) == None
    ensures i >= 0 ==> DefaultGateway(family, ifindex, ms[i]).Some?
    ensures StreamGateway(family, ifindex, ms) == if i < 0 then None else DefaultGateway(family, ifindex, ms[i])
  {
    hide DefaultGateway;
    if ms == [] || Ends(ms[0]) {
      return -1;
    }
    var rest := ms[1..];
    var k := StreamGatewayIsLast(family, ifindex, rest);
    assert forall j :: 0 < j < |ms| ==> ms[j] == rest[j - 1];
    i := if k >= 0 then k + 1 else if DefaultGateway(family, ifindex, ms[0]).Some? then 0 else -1;
    forall j | i < j < Live(ms) ensures DefaultGateway(family, ifindex, ms[j]) == None {
      if j > 0 {
        assert ms[j] == rest[j - 1];
      }
    }
  }

  /** Attribute `i` is of this kind and no later one is. */
  predicate IsLast(attrs: seq<Attr>, kind: u16, i: int) {
    0 <= i < |attrs| && attrs[i].kind == kind && forall j :: i < j < |attrs| ==> attrs[j].kind != kind
  }

  lemma {:induction false} LastAttrAt(attrs: seq<Attr>, kind: u16, i: int)
    requires IsLast(attrs, kind, i)
    ensures LastAttr(attrs, kind) == Some(attrs[i].payload)
  {
    var n := |attrs| - 1;
    if i < n {
      assert IsLast(attrs[..n], kind, i);
      LastAttrAt(attrs[..n], kind, i);
    }
  }

  /** The last attribute of a kind is the one no other of that kind follows. */
  lemma {:induction false} LastAttrMeaning(attrs: seq<Attr>, kind: u16, p: seq<byte>)
    ensures LastAttr(attrs, kind) == Some(p) <==> exists i :: IsLast(attrs, kind, i) && attrs[i].payload == p
  {
    if LastAttr(attrs, kind) == Some(p) {
      var i := LastAttrIndex(attrs, kind);
      LastAttrAt(attrs, kind, i);
    }
    if i :| IsLast(attrs, kind, i) && attrs[i].payload == p {
      LastAttrAt(attrs, kind, i);
    }
  }

  lemma {:induction false} LastAttrIndex(attrs: seq<Attr>, kind: u16) returns (i: int)
    requires LastAttr(attrs, kind).Some?
    ensures IsLast(attrs, kind, i)
  {
    i := |attrs| - 1;
    if attrs[i].kind != kind {
      i := LastAttrIndex(attrs[..i], kind);
    }
  }

  predicate AtMostOne(attrs: seq<Attr>, kind: u16) {
    forall i, j :: 0 <= i < j < |attrs| && attrs[i].kind == kind ==> attrs[j].kind != kind
  }

  lemma {:induction false} LastAttrIsMember(attrs: seq<Attr>, kind: u16)
    ensures match LastAttr(attrs, kind)
            case Some(p) => Attr(kind, p) in attrs
            case None => forall a | a in attrs :: a.kind != kind
  {
    if attrs != [] {
      var n := |attrs| - 1;
      LastAttrIsMember(attrs[..n], kind);
      assert attrs == attrs[..n] + [attrs[n]];
    }
  }

  lemma PermutedAttr(attrs: seq<Attr>, permuted: seq<Attr>, kind: u16)
    requires multiset(attrs) == multiset(permuted) && AtMostOne(attrs, kind)
    ensures LastAttr(permuted, kind) == LastAttr(attrs, kind)
  {
    LastAttrIsMember(attrs, kind);
    LastAttrIsMember(permuted, kind);
    assert forall a :: a in attrs <==> a in multiset(attrs);
    assert forall a :: a in permuted <==> a in multiset(permuted);
  }

  /** With at most one OIF and one GATEWAY, the order of a route's attributes does not matter. */
  lemma PermutationInvariance(
    family: byte, ifindex: int, m: Message, m': Message, attrs: seq<Attr>, permuted: seq<Attr>)
    requires m.kind == m'.kind && |m.body| >= 12 && |m'.body| >= 12 && m.body[..12] == m'.body[..12]
    requires AttrsEncode(attrs, m.body[12..]) && AttrsEncode(permuted, m'.body[12..])
    requires multiset(attrs) == multiset(permuted) && AtMostOne(attrs, 4) && AtMostOne(attrs, 5)
    ensures DefaultGateway(family, ifindex, m') == DefaultGateway(family, ifindex, m)
  {
    hide Attrs, AttrsEncode, LastAttr, AtMostOne, I32At;
    AttrsRoundTrip(attrs, m.body[RTMSG..]);
    AttrsRoundTrip(permuted, m'.body[RTMSG..]);
    PermutedAttr(attrs, permuted, RTA_OIF);
    PermutedAttr(attrs, permuted, RTA_GATEWAY);
    assert m.body[0] == m.body[..RTMSG][0] && m.body[1] == m.body[..RTMSG][1];
    assert m'.body[0] == m'.body[..RTMSG][0] && m'.body[1] == m'.body[..RTMSG][1];
  }

  /**
   * What makes a route with these attributes name gateway `g`: the family, a prefix length of 0, the
   * last OIF (4) is the interface, and the last GATEWAY (5) is `g`, as long as the family's addresses.
   */
  ghost predicate NamesGateway(family: byte, ifindex: int, m: Message, attrs: seq<Attr>, g: Gateway) {
    && m.kind == 24 && |m.body| >= 12 && m.body[0] == family && m.body[1] == 0
    && (exists i :: IsLast(attrs, 5, i) && attrs[i].payload == g)
    && (exists i :: IsLast(attrs, 4, i) && IsInterface(attrs[i].payload, ifindex))
    && IsAddress(family, g)
  }

  /** Exactly which encoded messages name gateway `g`; an interface index is never negative. */
  lemma RouteRoundTrip(family: byte, ifindex: int, m: Message, attrs: seq<Attr>, g: Gateway)
    requires m.kind == 24 ==> |m.body| >= 12 && AttrsEncode(attrs, m.body[12..])
    requires WellFormed(m) && ifindex >= 0
    ensures DefaultGateway(family, ifindex, m) == Some(g) <==> NamesGateway(family, ifindex, m, attrs, g)
  {
    hide LastAttr, IsLast, I32At;
    if m.kind == 24 {
      AttrsRoundTrip(attrs, m.body[12..]);
      LastAttrMeaning(attrs, 5, g);
      InterfaceMeaning(attrs, ifindex);
    }
  }

  /** The message's parts, as the parser reads them. */
  lemma RouteAt(data: array<byte>, nlh: nat, m: Message)
    requires nlh + NLMSG_HDRLEN <= data.Length && NLMSG_HDRLEN <= Load32(data, nlh) <= data.Length - nlh
    requires m.kind == 24 && m.body == data[nlh + 16..nlh + Load32(data, nlh)] && WellFormed(m)
    ensures var end := nlh + Load32(data, nlh);
            && nlh + 28 <= end && m.body[0] == data[nlh + 16] && m.body[1] == data[nlh + 17]
            && m.body[12..] == data[nlh + 28..end]
            && forall a | a in Attrs(data[nlh + 28..end]) :: a.kind == 4 ==> |a.payload| >= 4
  {
    hide Attrs, Load32;
    assert m.body[12..] == data[nlh + 28..nlh + Load32(data, nlh)];
  }

  /** The answer from the parts. */
  lemma GatewayOf(family: byte, ifindex: int, m: Message)
    requires m.kind == 24 && |m.body| >= 12
    ensures DefaultGateway(family, ifindex, m) ==
            var gateway := LastAttr(Attrs(m.body[12..]), 5);
            if m.body[0] != family || m.body[1] != 0 || gateway == None then None
            else if OutputInterface(Attrs(m.body[12..])) != ifindex then None
            else if IsAddress(family, gateway.value) then gateway
            else None
  {
    hide Attrs, LastAttr, OutputInterface;
  }

  /** `gw` is the gateway the message names, whichever attributes it is an encoding of. */
  ghost predicate IsNextHop(family: byte, ifindex: int, m: Message, gw: Option<Gateway>) {
    |m.body| >= 12 &&
    forall attrs, g | AttrsEncode(attrs, m.body[12..]) :: gw == Some(g) <==> NamesGateway(family, ifindex, m, attrs, g)
  }

  lemma NamedExactly(family: byte, ifindex: int, m: Message)
    requires m.kind == 24 && WellFormed(m)
    ensures ifindex >= 0 ==> IsNextHop(family, ifindex, m, DefaultGateway(family, ifindex, m))
  {
    hide DefaultGateway, NamesGateway, AttrsEncode;
    forall attrs, g | ifindex >= 0 && AttrsEncode(attrs, m.body[12..])
      ensures DefaultGateway(family, ifindex, m) == Some(g) <==> NamesGateway(family, ifindex, m, attrs, g)
    {
      RouteRoundTrip(family, ifindex, m, attrs, g);
    }
  }

  /** What is asked of a route message: an rtmsg, and four bytes in each OIF (4). */
  lemma RouteWellFormed(m: Message, attrs: seq<Attr>)
    requires m.kind == 24 ==> |m.body| >= 12 && AttrsEncode(attrs, m.body[12..])
    ensures WellFormed(m) <==> m.kind != 24 || forall a | a in attrs :: a.kind == 4 ==> |a.payload| >= 4
  {
    if m.kind == 24 {
      AttrsRoundTrip(attrs, m.body[12..]);
    }
  }

  /**
   * A dump whose last default route before its end names `g`, cut into batches anywhere, makes
   * Drain's answer `g`, whatever arrives behind the end.
   */
  lemma RouteDelivered(
    family: byte, ifindex: int, ms: seq<Message>, k: nat, attrs: seq<Attr>, g: Gateway,
    batches: seq<seq<byte>>, behind: seq<seq<byte>>)
    requires Delivers(batches, ms) && (Finished(ms) || behind == [])
    requires ifindex >= 0 && k < |ms| && WellFormed(ms[k]) && NamesGateway(family, ifindex, ms[k], attrs, g)
    requires AttrsEncode(attrs, ms[k].body[12..])
    requires forall i :: 0 <= i <= k ==> ms[i].kind != 2 && ms[i].kind != 3
    requires forall i :: k < i < Live(ms) ==> DefaultGateway(family, ifindex, ms[i]) == None
    ensures StreamGateway(family, ifindex, Stream(UntilEmpty(batches + behind))) == Some(g)
  {
    hide Delivers, Finished, DefaultGateway, NamesGateway, StreamGateway, Live;
    BatchIndependence(family, ifindex, ms, batches, behind, batches, behind);
    RouteRoundTrip(family, ifindex, ms[k], attrs, g);
    var i := StreamGatewayIsLast(family, ifindex, ms);
    LiveBehind(ms, k);
  }

  lemma LiveBehind(ms: seq<Message>, k: nat)
    requires k < |ms| && forall i :: 0 <= i <= k ==> ms[i].kind != 2 && ms[i].kind != 3
    ensures k < Live(ms)
  {
  }

  predicate IsInterface(payload: seq<byte>, ifindex: int) {
    |payload| >= 4 && I32At(payload, 0) == ifindex
  }

  lemma InterfaceMeaning(attrs: seq<Attr>, ifindex: int)
    requires ifindex >= 0
    ensures OutputInterface(attrs) == ifindex <==>
            exists i :: IsLast(attrs, 4, i) && IsInterface(attrs[i].payload, ifindex)
  {
    hide LastAttr, I32At;
    if i :| IsLast(attrs, 4, i) && IsInterface(attrs[i].payload, ifindex) {
      LastAttrAt(attrs, 4, i);
    }
    if OutputInterface(attrs) == ifindex {
      var i := LastAttrIndex(attrs, 4);
      LastAttrAt(attrs, 4, i);
    }
  }
}
