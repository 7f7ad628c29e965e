/** The link-event half of netlink.cpp: RTM_NEWLINK and RTM_DELLINK messages become callbacks. */
module LinkMessages {
  import opened Options
  import opened Bytes
  import opened Netlink
  import opened Sockets

  const IFLA_IFNAME: u16 := 3
  const IFINFOMSG := 16

  type Name = seq<byte>

  /** One callback, in the order the watcher receives them. */
  datatype LinkCall = Changed(ifindex: int, name: Name, isUp: bool) | Removed(ifindex: int)

  predicate Flag(flags: u32, value: u32)
    requires value > 0
  {
    flags / value % 2 == 1
  }

  /** IFF_UP, IFF_RUNNING and IFF_LOWER_UP all set. */
  predicate IsOperationallyUp(flags: u32) {
    Flag(flags, 0x1) && Flag(flags, 0x40) && Flag(flags, 0x1_0000)
  }

  /** Whatever the other 29 flags, an interface is up exactly when all three bits are. */
  lemma UpExact(up: nat, low: nat, running: nat, middle: nat, lowerUp: nat, high: nat)
    requires up < 2 && low < 32 && running < 2 && middle < 512 && lowerUp < 2 && high < 0x8000
    ensures var flags := up + 2 * low + 0x40 * running + 0x80 * middle + 0x1_0000 * lowerUp + 0x2_0000 * high;
            flags < 0x1_0000_0000 && (IsOperationallyUp(flags) <==> up == 1 && running == 1 && lowerUp == 1)
  {
    var flags := up + 2 * low + 0x40 * running + 0x80 * middle + 0x1_0000 * lowerUp + 0x2_0000 * high;
    assert flags / 0x40 == running + 2 * middle + 0x400 * lowerUp + 0x800 * high;
    assert flags / 0x1_0000 == lowerUp + 2 * high;
  }

  predicate IsLink(kind: u16) {
    kind == RTM_NEWLINK || kind == RTM_DELLINK
  }

  /** The name of a link message: its first IFNAME attribute without the trailing NUL, or empty. */
  function IfName(attrs: seq<Attr>): Name {
    match FirstAttr(attrs, IFLA_IFNAME)
    case None => []
    case Some(text) => if text == [] then [] else text[..|text| - 1]
  }

  /** What the kernel guarantees: the fixed header is there and a name carries its NUL. */
  predicate WellFormed(m: Message) {
    IsLink(m.kind) ==>
      && |m.body| >= IFINFOMSG
      && FirstAttr(Attrs(m.body[IFINFOMSG..]), IFLA_IFNAME) != Some([])
  }

  /** The callbacks one message asks for. */
  function CallsOf(m: Message): seq<LinkCall> {
    if !IsLink(m.kind) || |m.body| < IFINFOMSG then []
    else
      var ifindex, name := I32At(m.body, 4), IfName(Attrs(m.body[IFINFOMSG..]));
      if m.kind == RTM_DELLINK then [Removed(ifindex)]
      else if name == [] then []
      else [Changed(ifindex, name, IsOperationallyUp(U32At(m.body, 8)))]
  }

  function Calls(ms: seq<Message>): seq<LinkCall> {
    if ms == [] then [] else CallsOf(ms[0]) + Calls(ms[1..])
  }

  /** The attributes behind the ifinfomsg of the message at `nlh` (IFLA_RTA, IFLA_PAYLOAD). */
  ghost function AttrsAt(data: array<byte>, nlh: nat): seq<Attr>
    requires nlh + NLMSG_HDRLEN <= data.Length
    requires NLMSG_HDRLEN + IFINFOMSG <= Load32(data, nlh) <= data.Length - nlh
    reads data
  {
    Attrs(data[nlh + 32..nlh + Load32(data, nlh)])
  }

  method ExtractIfName(data: array<byte>, nlh: nat) returns (name: Name)
    requires nlh + NLMSG_HDRLEN <= data.Length
    requires NLMSG_HDRLEN + IFINFOMSG <= Load32(data, nlh) <= data.Length - nlh
    requires FirstAttr(AttrsAt(data, nlh), IFLA_IFNAME) != Some([])
    ensures name == IfName(AttrsAt(data, nlh))
  {
    hide Attrs, FirstAttr, Load16, Load32, Align4, Searching;
    var attrLen: int := Load32(data, nlh) - 32;
    var rta: nat := nlh + 32;
    ghost var wanted := FirstAttr(AttrsAt(data, nlh), IFLA_IFNAME);
    SearchStart(data, rta, attrLen);
    while attrLen >= RTA_HDRLEN && RTA_HDRLEN <= Load16(data, rta) <= attrLen
      invariant attrLen > 0 ==> rta + attrLen <= data.Length
      invariant Searching(data, rta, attrLen, wanted)
      decreases attrLen
    {
      var len := Load16(data, rta);
      SearchStep(data, rta, attrLen, wanted);
      if Load16(data, rta + 2) == IFLA_IFNAME {
        NameAt(data, rta, len, wanted);
        return data[rta + 4..rta + len - 1];
      }
      attrLen, rta := attrLen - Align4(len), rta + Align4(len);
    }
    SearchEnd(data, rta, attrLen, wanted);
    name := [];
  }

  /** The first name among the `attrLen` bytes at `rta`, none if that is not positive, is `wanted`. */
  ghost predicate Searching(data: array<byte>, rta: nat, attrLen: int, wanted: Option<seq<byte>>)
    reads data
  {
    if attrLen > 0
    then rta + attrLen <= data.Length && FirstAttr(Attrs(data[rta..rta + attrLen]), IFLA_IFNAME) == wanted
    else wanted == None
  }

  lemma SearchStart(data: array<byte>, rta: nat, attrLen: nat)
    requires rta + attrLen <= data.Length
    ensures Searching(data, rta, attrLen, FirstAttr(Attrs(data[rta..rta + attrLen]), IFLA_IFNAME))
  {
    if attrLen == 0 {
      NoAttrLeft(data[rta..rta], IFLA_IFNAME);
    }
  }

  lemma SearchStep(data: array<byte>, rta: nat, attrLen: int, wanted: Option<seq<byte>>)
    requires Searching(data, rta, attrLen, wanted)
    requires RTA_HDRLEN <= attrLen && rta + attrLen <= data.Length && RTA_HDRLEN <= Load16(data, rta) <= attrLen
    ensures var len := Load16(data, rta);
            if Load16(data, rta + 2) == IFLA_IFNAME then wanted == Some(data[rta + 4..rta + len])
            else Searching(data, rta + Align4(len), attrLen - Align4(len), wanted)
  {
    hide Attrs, FirstAttr, Load16, Align4;
    FirstAttrAt(data, rta, rta + attrLen, IFLA_IFNAME);
    NoAttrLeft([], IFLA_IFNAME);
  }

  lemma SearchEnd(data: array<byte>, rta: nat, attrLen: int, wanted: Option<seq<byte>>)
    requires Searching(data, rta, attrLen, wanted)
    requires attrLen > 0 ==> rta + attrLen <= data.Length
    requires !(attrLen >= RTA_HDRLEN && RTA_HDRLEN <= Load16(data, rta) <= attrLen)
    ensures wanted == None
  {
    if attrLen > 0 {
      if attrLen >= RTA_HDRLEN {
        AttrAt(data, rta, rta + attrLen);
      }
      NoAttrLeft(data[rta..rta + attrLen], IFLA_IFNAME);
    }
  }

  /** One step of the first-match search, on the loads the loop makes. */
  lemma FirstAttrAt(data: array<byte>, rta: nat, end: nat, kind: u16)
    requires rta + RTA_HDRLEN <= end <= data.Length && RTA_HDRLEN <= Load16(data, rta) <= end - rta
    ensures var len := Load16(data, rta);
            var next := rta + Align4(len);
            FirstAttr(Attrs(data[rta..end]), kind) ==
            if Load16(data, rta + 2) == kind then Some(data[rta + 4..rta + len])
            else FirstAttr(Attrs(if next < end then data[next..end] else []), kind)
  {
    AttrAt(data, rta, end);
    var b := data[rta..end];
    assert Attrs(b)[1..] == Attrs(RtaNext(b));
    if rta + Align4(Load16(data, rta)) == end {
      assert data[end..end] == [];
    }
  }

  lemma NoAttrLeft(b: seq<byte>, kind: u16)
    requires !RtaOk(b)
    ensures FirstAttr(Attrs(b), kind) == None
  {
  }

  lemma NameAt(data: array<byte>, rta: nat, len: nat, wanted: Option<seq<byte>>)
    requires 4 <= len && rta + len <= data.Length
    requires wanted == Some(data[rta + 4..rta + len]) && wanted != Some([])
    ensures len > 4 && wanted.value[..|wanted.value| - 1] == data[rta + 4..rta + len - 1]
  {
    assert |data[rta + 4..rta + len]| == len - 4;
  }

  /** What the method's loads read of the message. */
  lemma LinkFields(data: array<byte>, nlh: nat, m: Message)
    requires nlh + NLMSG_HDRLEN <= data.Length
    requires NLMSG_HDRLEN + IFINFOMSG <= Load32(data, nlh) <= data.Length - nlh
    requires m.body == data[nlh + 16..nlh + Load32(data, nlh)]
    ensures LoadI32(data, nlh + 20) == I32At(m.body, 4) && Load32(data, nlh + 24) == U32At(m.body, 8)
    ensures AttrsAt(data, nlh) == Attrs(m.body[IFINFOMSG..])
  {
    hide Attrs;
    assert m.body[IFINFOMSG..] == data[nlh + 32..nlh + Load32(data, nlh)];
  }

  /** The body of the loop for one link message. */
  method LinkCallAt(data: array<byte>, nlh: nat, ghost m: Message) returns (calls: seq<LinkCall>)
    requires nlh + NLMSG_HDRLEN <= data.Length
    requires NLMSG_HDRLEN <= Load32(data, nlh) <= data.Length - nlh
    requires m.kind == Load16(data, nlh + 4) && m.body == data[nlh + 16..nlh + Load32(data, nlh)]
    requires IsLink(m.kind) && WellFormed(m)
    ensures calls == CallsOf(m)
  {
    hide Attrs, FirstAttr, IfName, IsOperationallyUp, Load16, Load32, LoadI32, I32At, U32At;
    LinkFields(data, nlh, m);
    var ifindex, flags := LoadI32(data, nlh + 20), Load32(data, nlh + 24);
    var name := ExtractIfName(data, nlh);
    if Load16(data, nlh + 4) == RTM_DELLINK {
      return [Removed(ifindex)];
    }
    if name == [] {
      return [];
    }
    return [Changed(ifindex, name, IsOperationallyUp(flags))];
  }

  /**
   * One batch, the last padding included and its link messages well-formed, all other bytes being
   * arbitrary. Indexing the array by `nlh` and `rta` is the proof that every read stays inside the
   * batch, although `len` is unsigned.
   */
  method HandleMessage(data: array<byte>, n: nat) returns (calls: seq<LinkCall>)
    requires n <= data.Length < 0x8000_0000
    requires Padded(data[..n])
    requires forall m | m in Messages(data[..n]) :: WellFormed(m)
    ensures calls == Calls(Messages(data[..n]))
    ensures forall ds | Encodes(data[..n], ds) :: calls == Events(ds)
  {
    hide Encodes, Events;
    hide Messages, Calls, CallsOf, WellFormed, NlmsgHead, NlmsgNext, Align4, Load32, Load16, U32At, Remaining;
    var len: nat := n;
    var nlh: nat := 0;
    calls := [];
    ghost var cur := data[..n];
    RemainingStart(cur);
    while len >= NLMSG_HDRLEN && NLMSG_HDRLEN <= Load32(data, nlh) <= len
      invariant nlh + len == n && cur == data[nlh..n]
      invariant Remaining(data[..n], calls, cur)
      decreases len
    {
      var msgLen := Load32(data, nlh);
      MessageAt(data, nlh, n);
      ghost var m := NlmsgHead(cur);
      ghost var before := calls;
      RemainingStep(data[..n], calls, cur);
      if IsLink(Load16(data, nlh + 4)) {
        var call := LinkCallAt(data, nlh, m);
        calls := calls + call;
      } else {
        OtherMessage(m);
      }
      assert calls == before + CallsOf(m);
      len, nlh := SizeMinus(len, Align4(msgLen)), nlh + Align4(msgLen);
      cur := NlmsgNext(cur);
    }
    if len >= NLMSG_HDRLEN {
      MessageAt(data, nlh, n);
    }
    RemainingEnd(data[..n], calls, cur);
    forall ds | Encodes(data[..n], ds) ensures calls == Events(ds) {
      LinkRoundTrip(ds, data[..n]);
    }
  }

  /** After delivering `calls`, the messages of `cur` are what is left to do for the batch `b`. */
  ghost predicate Remaining(b: seq<byte>, calls: seq<LinkCall>, cur: seq<byte>) {
    && Padded(cur)
    && (forall m | m in Messages(cur) :: WellFormed(m))
    && Calls(Messages(b)) == calls + Calls(Messages(cur))
  }

  lemma OtherMessage(m: Message)
    requires !IsLink(m.kind)
    ensures CallsOf(m) == []
  {
  }

  lemma RemainingStart(b: seq<byte>)
    requires Padded(b) && forall m | m in Messages(b) :: WellFormed(m)
    ensures Remaining(b, [], b)
  {
  }

  lemma RemainingEnd(b: seq<byte>, calls: seq<LinkCall>, cur: seq<byte>)
    requires Remaining(b, calls, cur) && !NlmsgOk(cur)
    ensures calls == Calls(Messages(b))
  {
  }

  lemma RemainingStep(b: seq<byte>, calls: seq<LinkCall>, cur: seq<byte>)
    requires Remaining(b, calls, cur) && NlmsgOk(cur)
    ensures WellFormed(NlmsgHead(cur))
    ensures Align4(U32At(cur, 0)) <= |cur|
    ensures Remaining(b, calls + CallsOf(NlmsgHead(cur)), NlmsgNext(cur))
  {
    hide CallsOf, WellFormed, U32At, U16At, Align4, NlmsgHead, NlmsgNext, NlmsgOk;
    var ms := Messages(cur);
    assert ms[0] == NlmsgHead(cur) && ms[1..] == Messages(NlmsgNext(cur));
    assert ms[0] in ms && forall m | m in ms[1..] :: m in ms;
  }

  // ---------- Draining the socket ----------

  /** The kernel's promise about one batch. */
  ghost predicate GoodBatch(batch: seq<byte>) {
    var b := Received(batch, RECV_BUFFER);
    Padded(b) && forall m | m in Messages(b) :: WellFormed(m)
  }

  lemma CallsStep(ms: seq<Message>)
    requires ms != []
    ensures Calls(ms) == CallsOf(ms[0]) + Calls(ms[1..])
  {
  }

  lemma {:induction false} CallsConcat(a: seq<Message>, b: seq<Message>)
    ensures Calls(a + b) == Calls(a) + Calls(b)
  {
    if a == [] {
      assert a + b == b;
    } else {
      hide CallsOf, Calls;
      CallsConcat(a[1..], b);
      CallsStep(a + b);
      CallsStep(a);
      TailOfSum(a, b);
      SumsAssociate(CallsOf(a[0]), Calls(a[1..]), Calls(b));
    }
  }

  /**
   * processPendingMessages: the callbacks are those of the whole message stream, however it was
   * cut into batches; the loop ends at the first failed or empty receive.
   */
  method ProcessPendingMessages(sock: DatagramSocket) returns (calls: seq<LinkCall>)
    requires forall b | b in sock.inbox :: GoodBatch(b)
    modifies sock
    ensures calls == Calls(Stream(UntilEmpty(old(sock.inbox))))
    ensures sock.inbox == BehindEmpty(old(sock.inbox))
  {
    hide Calls, Messages, Stream, Received, GoodBatch;
    var buf := new byte[RECV_BUFFER];
    calls := [];
    ghost var all := Calls(Stream(UntilEmpty(sock.inbox)));
    while true
      invariant forall b | b in sock.inbox :: GoodBatch(b)
      invariant all == calls + Calls(Stream(UntilEmpty(sock.inbox)))
      invariant BehindEmpty(sock.inbox) == BehindEmpty(old(sock.inbox))
      decreases |sock.inbox|
    {
      ghost var pending := sock.inbox;
      PendingStep(pending);
      var n := sock.Recv(buf);
      if n < 0 {
        break;
      }
      if n == 0 {
        break;
      }
      var more := HandleMessage(buf, n);
      calls := calls + more;
    }
  }

  lemma PendingStep(pending: seq<seq<byte>>)
    requires forall b | b in pending :: GoodBatch(b)
    ensures var left := Calls(Stream(UntilEmpty(pending)));
            if pending == [] || Received(pending[0], RECV_BUFFER) == [] then
              left == [] && BehindEmpty(pending) == if pending == [] then [] else pending[1..]
            else
              BehindEmpty(pending) == BehindEmpty(pending[1..]) &&
              var b := Received(pending[0], RECV_BUFFER);
              && Padded(b) && (forall m | m in Messages(b) :: WellFormed(m))
              && left == Calls(Messages(b)) + Calls(Stream(UntilEmpty(pending[1..])))
  {
    if pending != [] && pending[0] != [] {
      assert GoodBatch(pending[0]);
      CallsConcat(Messages(Received(pending[0], RECV_BUFFER)), Stream(UntilEmpty(pending[1..])));
      assert UntilEmpty(pending)[1..] == UntilEmpty(pending[1..]);
    }
  }

  // ---------- Round trip from described messages ----------

  /** A message as the kernel means it, RTM_NEWLINK (16), RTM_DELLINK (17) or another; all else is arbitrary. */
  datatype Described =
    | NewLink(ifindex: int, flags: u32, before: seq<Attr>, name: Option<Name>, after: seq<Attr>)
    | DelLink(ifindex: int, attrs: seq<Attr>)
    | Other(kind: u16)

  /** The attributes of a named interface hold an IFNAME (3) that ends in a NUL, with none before it. */
  function AttrsMeant(before: seq<Attr>, name: Option<Name>, after: seq<Attr>): seq<Attr> {
    match name
    case None => before
    case Some(text) => before + [Attr(3, text + [0])] + after
  }

  ghost predicate Describes(d: Described, m: Message) {
    match d
    case Other(kind) => m.kind == kind && kind != 16 && kind != 17
    case DelLink(ifindex, attrs) =>
      && m.kind == 17 && |m.body| >= 16 && IsI32(ifindex) && m.body[4..8] == I32Bytes(ifindex)
      && AttrsEncode(attrs, m.body[16..]) && forall a | a in attrs :: a.kind == 3 ==> a.payload != []
    case NewLink(ifindex, flags, before, name, after) =>
      && m.kind == 16 && |m.body| >= 16 && IsI32(ifindex) && m.body[4..8] == I32Bytes(ifindex)
      && m.body[8..12] == U32Bytes(flags)
      && AttrsEncode(AttrsMeant(before, name, after), m.body[16..]) && forall a | a in before :: a.kind != 3
  }

  ghost predicate DescribesAll(ds: seq<Described>, ms: seq<Message>) {
    |ds| == |ms| && forall i :: 0 <= i < |ds| ==> Describes(ds[i], ms[i])
  }

  /** The batch is an encoding of messages so described. */
  ghost predicate Encodes(batch: seq<byte>, ds: seq<Described>) {
    exists ms :: MessagesEncode(ms, batch) && DescribesAll(ds, ms)
  }

  /** Bits 0, 6 and 16: up, running, and the link below up. */
  predicate MeansUp(flags: u32) {
    flags % 2 == 1 && flags / 64 % 2 == 1 && flags / 65536 % 2 == 1
  }

  function EventOf(d: Described): seq<LinkCall> {
    match d
    case Other(_) => []
    case DelLink(ifindex, _) => [Removed(ifindex)]
    case NewLink(ifindex, flags, _, name, _) =>
      if name.Some? && name.value != [] then [Changed(ifindex, name.value, MeansUp(flags))] else []
  }

  /** The link events of a list of messages. */
  function Events(ds: seq<Described>): seq<LinkCall> {
    if ds == [] then [] else EventOf(ds[0]) + Events(ds[1..])
  }

  lemma {:induction false} EventsDelivered(ds: seq<Described>, ms: seq<Message>)
    requires DescribesAll(ds, ms)
    ensures Calls(ms) == Events(ds) && forall m | m in ms :: WellFormed(m)
  {
    hide CallsOf, Describes, WellFormed;
    if ds != [] {
      EventsDelivered(ds[1..], ms[1..]);
      OneDelivered(ds[0], ms[0]);
      assert forall m | m in ms :: m == ms[0] || m in ms[1..];
    }
  }

  lemma OneDelivered(d: Described, m: Message)
    requires Describes(d, m)
    ensures CallsOf(m) == EventOf(d) && WellFormed(m)
  {
    hide IfName, FirstAttr, Attrs, AttrsEncode, I32Bytes, U32Bytes, I32At, U32At, AttrsMeant;
    match d
    case Other(_) =>
    case DelLink(ifindex, attrs) =>
      AttrsRoundTrip(attrs, m.body[16..]);
      FirstIsMember(attrs, 3);
      IndexAt(m.body, ifindex);
    case NewLink(ifindex, flags, before, name, after) =>
      AttrsRoundTrip(AttrsMeant(before, name, after), m.body[16..]);
      NameMeant(before, name, after);
      IndexAt(m.body, ifindex);
      FlagsAt(m.body, flags);
  }

  lemma IndexAt(body: seq<byte>, ifindex: int)
    requires |body| >= 8 && IsI32(ifindex) && body[4..8] == I32Bytes(ifindex)
    ensures I32At(body, 4) == ifindex
  {
    assert I32At(body, 4) == I32At(body[4..8], 0);
  }

  lemma FlagsAt(body: seq<byte>, flags: u32)
    requires |body| >= 12 && body[8..12] == U32Bytes(flags)
    ensures U32At(body, 8) == flags
  {
    assert U32At(body, 8) == U32At(body[8..12], 0);
  }

  lemma {:induction false} FirstIsMember(attrs: seq<Attr>, kind: u16)
    ensures match FirstAttr(attrs, kind)
            case Some(p) => Attr(kind, p) in attrs
            case None => forall a | a in attrs :: a.kind != kind
  {
    if attrs != [] {
      FirstIsMember(attrs[1..], kind);
      assert attrs == [attrs[0]] + attrs[1..];
    }
  }

  lemma NameMeant(before: seq<Attr>, name: Option<Name>, after: seq<Attr>)
    requires forall a | a in before :: a.kind != 3
    ensures IfName(AttrsMeant(before, name, after)) == if name.Some? then name.value else []
    ensures FirstAttr(AttrsMeant(before, name, after), 3) == if name.Some? then Some(name.value + [0]) else None
  {
    FirstNameWins(before, if name.Some? then name.value + [0] else [0], after);
  }

  /** Whatever the attributes, padding and trailing bytes, decoding delivers the events meant, in order. */
  lemma LinkRoundTrip(ds: seq<Described>, batch: seq<byte>)
    requires Encodes(batch, ds)
    ensures Calls(Messages(batch)) == Events(ds) && forall m | m in Messages(batch) :: WellFormed(m)
  {
    var ms :| MessagesEncode(ms, batch) && DescribesAll(ds, ms);
    MessagesRoundTrip(ms, batch);
    EventsDelivered(ds, ms);
  }

  /** The same for messages spread over batches, with anything arriving behind them. */
  lemma LinkStreamRoundTrip(ds: seq<Described>, ms: seq<Message>, batches: seq<seq<byte>>, behind: seq<seq<byte>>)
    requires DescribesAll(ds, ms) && Delivers(batches, ms)
    ensures Calls(Stream(UntilEmpty(batches + behind))) == Events(ds) + Calls(Stream(UntilEmpty(behind)))
  {
    hide Calls, Stream, UntilEmpty, DescribesAll, Delivers;
    DeliveredStream(batches, ms, behind);
    EventsDelivered(ds, ms);
    CallsConcat(ms, Stream(UntilEmpty(behind)));
  }

  /** The name is the one of the first IFNAME attribute, whatever follows it, and nothing else names an interface. */
  lemma {:induction false} FirstNameWins(before: seq<Attr>, text: seq<byte>, after: seq<Attr>)
    requires text != [] && forall a | a in before :: a.kind != 3
    ensures IfName(before + [Attr(3, text)] + after) == text[..|text| - 1]
    ensures FirstAttr(before + [Attr(3, text)] + after, 3) == Some(text)
    ensures IfName(before) == [] && FirstAttr(before, 3) == None
  {
    var attrs := before + [Attr(3, text)] + after;
    if before != [] {
      FirstNameWins(before[1..], text, after);
      assert attrs[1..] == before[1..] + [Attr(3, text)] + after;
      assert attrs[0] in before;
    }
  }
}
