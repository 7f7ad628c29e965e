/**
 * The netlink wire format both parsers walk (RFC 3549 section 2.3.2 and the NLMSG and RTA macros):
 * length-prefixed records, each starting on a 4-byte boundary.
 */
module Netlink {
  import opened Options
  import opened Bytes
  import opened Sockets

  const NLMSG_HDRLEN := 16
  const RTA_HDRLEN := 4
  const NLMSG_ERROR: u16 := 2
  const NLMSG_DONE: u16 := 3
  const RTM_NEWLINK: u16 := 16
  const RTM_DELLINK: u16 := 17
  const RTM_NEWROUTE: u16 := 24

  /** `meta` is the rest of the header: flags, sequence number and port, which neither parser reads. */
  datatype Message = Message(kind: u16, meta: seq<byte>, body: seq<byte>)

  datatype Attr = Attr(kind: u16, payload: seq<byte>)

  lemma TailOfSum<T>(a: seq<T>, b: seq<T>)
    requires a != []
    ensures (a + b)[0] == a[0] && (a + b)[1..] == a[1..] + b
  {
  }

  lemma SumsAssociate<T>(a: seq<T>, b: seq<T>, c: seq<T>)
    ensures (a + b) + c == a + (b + c)
  {
  }

  function Align4(n: nat): (r: nat)
    ensures n <= r < n + 4 && r % 4 == 0
  {
    (n + 3) / 4 * 4
  }

  /** What is left of `b` behind a first record of `n` bytes and its padding. */
  function After(b: seq<byte>, n: nat): (rest: seq<byte>)
    ensures n > 0 && b != [] ==> |rest| < |b|
  {
    if Align4(n) <= |b| then b[Align4(n)..] else []
  }

  // ---------- Decoding: what NLMSG_OK/NLMSG_NEXT and RTA_OK/RTA_NEXT visit ----------

  predicate NlmsgOk(b: seq<byte>) {
    |b| >= NLMSG_HDRLEN && NLMSG_HDRLEN <= U32At(b, 0) <= |b|
  }

  function NlmsgNext(b: seq<byte>): (rest: seq<byte>)
    requires NlmsgOk(b)
    ensures |rest| < |b|
  {
    After(b, U32At(b, 0))
  }

  function NlmsgHead(b: seq<byte>): Message
    requires NlmsgOk(b)
  {
    Message(U16At(b, 4), b[6..16], b[16..U32At(b, 0)])
  }

  function Messages(b: seq<byte>): seq<Message>
    decreases |b|
  {
    if NlmsgOk(b) then [NlmsgHead(b)] + Messages(NlmsgNext(b)) else []
  }

  predicate RtaOk(b: seq<byte>) {
    |b| >= RTA_HDRLEN && RTA_HDRLEN <= U16At(b, 0) <= |b|
  }

  function RtaNext(b: seq<byte>): (rest: seq<byte>)
    requires RtaOk(b)
    ensures |rest| < |b|
  {
    After(b, U16At(b, 0))
  }

  function RtaHead(b: seq<byte>): Attr
    requires RtaOk(b)
  {
    Attr(U16At(b, 2), b[4..U16At(b, 0)])
  }

  function Attrs(b: seq<byte>): seq<Attr>
    decreases |b|
  {
    if RtaOk(b) then [RtaHead(b)] + Attrs(RtaNext(b)) else []
  }

  function FirstAttr(attrs: seq<Attr>, kind: u16): Option<seq<byte>> {
    if attrs == [] then None
    else if attrs[0].kind == kind then Some(attrs[0].payload)
    else FirstAttr(attrs[1..], kind)
  }

  function LastAttr(attrs: seq<Attr>, kind: u16): Option<seq<byte>> {
    if attrs == [] then None
    else if attrs[|attrs| - 1].kind == kind then Some(attrs[|attrs| - 1].payload)
    else LastAttr(attrs[..|attrs| - 1], kind)
  }

  // ---------- Encoding, with arbitrary padding bytes ----------

  predicate AttrFits(a: Attr) {
    RTA_HDRLEN + |a.payload| < 0x1_0000
  }

  function EncodeAttr(a: Attr): (b: seq<byte>)
    requires AttrFits(a)
    ensures |b| == RTA_HDRLEN + |a.payload|
  {
    U16Bytes(RTA_HDRLEN + |a.payload|) + U16Bytes(a.kind) + a.payload
  }

  predicate MessageFits(m: Message) {
    |m.meta| == 10 && NLMSG_HDRLEN + |m.body| < 0x1_0000_0000
  }

  function EncodeMessage(m: Message): (b: seq<byte>)
    requires MessageFits(m)
    ensures |b| == NLMSG_HDRLEN + |m.body|
  {
    U32Bytes(NLMSG_HDRLEN + |m.body|) + U16Bytes(m.kind) + m.meta + m.body
  }

  /** A record of `n` bytes is padded up to the boundary; the last record may stop short of it. */
  predicate PadFits(n: nat, pad: seq<byte>, rest: seq<byte>) {
    n + |pad| == Align4(n) || (rest == [] && n + |pad| < Align4(n))
  }

  ghost predicate AttrSplit(a: Attr, pad: seq<byte>, rest: seq<byte>, b: seq<byte>) {
    AttrFits(a) && PadFits(RTA_HDRLEN + |a.payload|, pad, rest) && b == EncodeAttr(a) + (pad + rest)
  }

  ghost predicate MessageSplit(m: Message, pad: seq<byte>, rest: seq<byte>, b: seq<byte>) {
    MessageFits(m) && PadFits(NLMSG_HDRLEN + |m.body|, pad, rest) && b == EncodeMessage(m) + (pad + rest)
  }

  /** `b` is `attrs` one after the other, then bytes that hold no further attribute. */
  ghost predicate AttrsEncode(attrs: seq<Attr>, b: seq<byte>)
    decreases |attrs|
  {
    if attrs == [] then !RtaOk(b)
    else exists pad, rest :: AttrSplit(attrs[0], pad, rest, b) && AttrsEncode(attrs[1..], rest)
  }

  ghost predicate MessagesEncode(ms: seq<Message>, b: seq<byte>)
    decreases |ms|
  {
    if ms == [] then !NlmsgOk(b)
    else exists pad, rest :: MessageSplit(ms[0], pad, rest, b) && MessagesEncode(ms[1..], rest)
  }

  /** The encodings, byte by byte: the record's whole length, its type, and what it holds. */
  lemma MessageLayout(m: Message)
    requires MessageFits(m)
    ensures var n := 16 + |m.body|;
            && n < 4294967296 && |m.meta| == 10
            && EncodeMessage(m) == [n % 256, n / 256 % 256, n / 65536 % 256, n / 16777216,
                                    m.kind % 256, m.kind / 256] + m.meta + m.body
  {
    var n := 16 + |m.body|;
    var b := U32Bytes(n);
    BytesOf32(n);
    assert b == [b[0], b[1], b[2], b[3]];
  }

  lemma AttrLayout(a: Attr)
    requires AttrFits(a)
    ensures var n := 4 + |a.payload|;
            n < 65536 && EncodeAttr(a) == [n % 256, n / 256, a.kind % 256, a.kind / 256] + a.payload
  {
  }

  // ---------- Round trips ----------

  lemma AttrHeader(a: Attr, tail: seq<byte>)
    requires AttrFits(a)
    ensures var b := EncodeAttr(a) + tail; RtaOk(b) && RtaHead(b) == a && U16At(b, 0) == RTA_HDRLEN + |a.payload|
  {
    var b := EncodeAttr(a) + tail;
    var n := RTA_HDRLEN + |a.payload|;
    assert b[0] == U16Bytes(n)[0] && b[1] == U16Bytes(n)[1];
    assert U16At(b, 0) == U16At(U16Bytes(n), 0);
    assert b[2] == U16Bytes(a.kind)[0] && b[3] == U16Bytes(a.kind)[1];
    assert U16At(b, 2) == U16At(U16Bytes(a.kind), 0);
    assert b[4..n] == a.payload;
  }

  lemma MessageSlices(m: Message, tail: seq<byte>)
    requires MessageFits(m)
    ensures var b, n := EncodeMessage(m) + tail, NLMSG_HDRLEN + |m.body|;
            b[..4] == U32Bytes(n) && b[4..6] == U16Bytes(m.kind) && b[6..16] == m.meta && b[16..n] == m.body
  {
    hide U32Bytes, U16Bytes, U32At, U16At;
    var size, kind := U32Bytes(NLMSG_HDRLEN + |m.body|), U16Bytes(m.kind);
    FiveParts(size, kind, m.meta, m.body, tail);
  }

  lemma FiveParts(a: seq<byte>, b: seq<byte>, c: seq<byte>, d: seq<byte>, e: seq<byte>)
    ensures var s := a + b + c + d + e;
            && s[..|a|] == a && s[|a|..|a| + |b|] == b && s[|a| + |b|..|a| + |b| + |c|] == c
            && s[|a| + |b| + |c|..|a| + |b| + |c| + |d|] == d
  {
  }

  lemma MessageHeader(m: Message, tail: seq<byte>)
    requires MessageFits(m)
    ensures var b := EncodeMessage(m) + tail;
            NlmsgOk(b) && NlmsgHead(b) == m && U32At(b, 0) == NLMSG_HDRLEN + |m.body|
  {
    var b := EncodeMessage(m) + tail;
    MessageSlices(m, tail);
    hide EncodeMessage, U32Bytes, U16Bytes;
    assert U32At(b, 0) == U32At(b[..4], 0);
    assert U16At(b, 4) == U16At(b[4..6], 0);
  }

  lemma AfterSplit(record: seq<byte>, pad: seq<byte>, rest: seq<byte>)
    requires PadFits(|record|, pad, rest)
    ensures After(record + (pad + rest), |record|) == rest
  {
  }

  lemma SplitAfter(b: seq<byte>, n: nat)
    requires n <= |b|
    ensures PadFits(n, PadAfter(n, b), After(b, n))
    ensures b == b[..n] + (PadAfter(n, b) + After(b, n))
  {
  }

  lemma AttrSplitDecodes(a: Attr, pad: seq<byte>, rest: seq<byte>, b: seq<byte>)
    requires AttrSplit(a, pad, rest, b)
    ensures RtaOk(b) && RtaHead(b) == a && RtaNext(b) == rest
  {
    AttrHeader(a, pad + rest);
    AfterSplit(EncodeAttr(a), pad, rest);
  }

  lemma MessageSplitDecodes(m: Message, pad: seq<byte>, rest: seq<byte>, b: seq<byte>)
    requires MessageSplit(m, pad, rest, b)
    ensures NlmsgOk(b) && NlmsgHead(b) == m && NlmsgNext(b) == rest
  {
    MessageHeader(m, pad + rest);
    AfterSplit(EncodeMessage(m), pad, rest);
  }

  function PadAfter(n: nat, b: seq<byte>): seq<byte>
    requires n <= |b|
  {
    if Align4(n) <= |b| then b[n..Align4(n)] else b[n..]
  }

  lemma AttrSplitOf(b: seq<byte>)
    requires RtaOk(b)
    ensures AttrSplit(RtaHead(b), PadAfter(U16At(b, 0), b), RtaNext(b), b)
  {
    var n := U16At(b, 0);
    U16BytesOf(b);
    U16BytesOf(b[2..]);
    assert U16At(b[2..], 0) == U16At(b, 2);
    assert b[..n] == b[..2] + b[2..][..2] + b[4..n];
    SplitAfter(b, n);
  }

  lemma MessageSplitOf(b: seq<byte>)
    requires NlmsgOk(b)
    ensures MessageSplit(NlmsgHead(b), PadAfter(U32At(b, 0), b), NlmsgNext(b), b)
  {
    var n := U32At(b, 0);
    U32BytesOf(b);
    U16BytesOf(b[4..]);
    assert U16At(b[4..], 0) == U16At(b, 4);
    assert b[..n] == b[..4] + b[4..][..2] + b[6..16] + b[16..n];
    SplitAfter(b, n);
  }

  /** Decoding any encoding of `attrs` gives `attrs` back, and a buffer encodes only what it decodes to. */
  lemma {:induction false} AttrsRoundTrip(attrs: seq<Attr>, b: seq<byte>)
    ensures AttrsEncode(attrs, b) <==> Attrs(b) == attrs
    decreases |attrs|
  {
    if attrs != [] {
      if AttrsEncode(attrs, b) {
        var pad, rest :| AttrSplit(attrs[0], pad, rest, b) && AttrsEncode(attrs[1..], rest);
        AttrSplitDecodes(attrs[0], pad, rest, b);
        AttrsRoundTrip(attrs[1..], rest);
      }
      if Attrs(b) == attrs {
        AttrSplitOf(b);
        AttrsRoundTrip(attrs[1..], RtaNext(b));
        assert attrs[0] == RtaHead(b) && AttrsEncode(attrs[1..], RtaNext(b));
      }
    }
  }

  lemma {:induction false} MessagesRoundTrip(ms: seq<Message>, b: seq<byte>)
    ensures MessagesEncode(ms, b) <==> Messages(b) == ms
    decreases |ms|
  {
    if ms != [] {
      if MessagesEncode(ms, b) {
        var pad, rest :| MessageSplit(ms[0], pad, rest, b) && MessagesEncode(ms[1..], rest);
        MessageSplitDecodes(ms[0], pad, rest, b);
        MessagesRoundTrip(ms[1..], rest);
      }
      if Messages(b) == ms {
        MessageSplitOf(b);
        MessagesRoundTrip(ms[1..], NlmsgNext(b));
        assert ms[0] == NlmsgHead(b) && MessagesEncode(ms[1..], NlmsgNext(b));
      }
    }
  }

  // ---------- Pointers into a buffer ----------

  lemma AfterAt(data: array<byte>, at: nat, end: nat, n: nat)
    requires at + n <= end <= data.Length
    ensures After(data[at..end], n) == if at + Align4(n) <= end then data[at + Align4(n)..end] else []
  {
  }

  /** The loads RTA_OK, the loop body and RTA_NEXT make at `rta` see the attribute the bytes start with. */
  lemma AttrAt(data: array<byte>, rta: nat, end: nat)
    requires rta + RTA_HDRLEN <= end <= data.Length
    ensures RtaOk(data[rta..end]) <==> RTA_HDRLEN <= Load16(data, rta) <= end - rta
    ensures RtaOk(data[rta..end]) ==>
              var len := Load16(data, rta);
              && RtaHead(data[rta..end]) == Attr(Load16(data, rta + 2), data[rta + 4..rta + len])
              && RtaNext(data[rta..end]) == if rta + Align4(len) <= end then data[rta + Align4(len)..end] else []
  {
    var cur := data[rta..end];
    assert U16At(cur, 0) == Load16(data, rta);
    if RtaOk(cur) {
      AfterAt(data, rta, end, Load16(data, rta));
    }
  }

  /** The same for NLMSG_OK and NLMSG_NEXT at `nlh`. */
  lemma MessageAt(data: array<byte>, nlh: nat, end: nat)
    requires nlh + NLMSG_HDRLEN <= end <= data.Length
    ensures NlmsgOk(data[nlh..end]) <==> NLMSG_HDRLEN <= Load32(data, nlh) <= end - nlh
    ensures NlmsgOk(data[nlh..end]) ==>
              var len := Load32(data, nlh);
              && U32At(data[nlh..end], 0) == len
              && NlmsgHead(data[nlh..end]).kind == Load16(data, nlh + 4)
              && NlmsgHead(data[nlh..end]).body == data[nlh + 16..nlh + len]
              && NlmsgNext(data[nlh..end]) == if nlh + Align4(len) <= end then data[nlh + Align4(len)..end] else []
  {
    var cur := data[nlh..end];
    assert U32At(cur, 0) == Load32(data, nlh);
    if NlmsgOk(cur) {
      AfterAt(data, nlh, end, Load32(data, nlh));
    }
  }

  // ---------- Batches ----------

  const RECV_BUFFER := 8192

  /** The messages of several batches as one stream, as the receive loops see them. */
  function Stream(batches: seq<seq<byte>>): seq<Message> {
    if batches == [] then []
    else Messages(Received(batches[0], RECV_BUFFER)) + Stream(batches[1..])
  }

  /** The batches carry `ms`, cut anywhere between two messages, and each fits the receive buffer. */
  ghost predicate Delivers(batches: seq<seq<byte>>, ms: seq<Message>)
    decreases |batches|
  {
    if batches == [] then ms == []
    else 0 < |batches[0]| <= 8192 && exists k :: CutAt(batches[0], ms, k) && Delivers(batches[1..], ms[k..])
  }

  ghost predicate CutAt(batch: seq<byte>, ms: seq<Message>, k: int) {
    0 <= k <= |ms| && MessagesEncode(ms[..k], batch)
  }

  lemma StreamOfFirst(all: seq<seq<byte>>)
    requires all != [] && 0 < |all[0]| <= 8192
    ensures Stream(UntilEmpty(all)) == Messages(all[0]) + Stream(UntilEmpty(all[1..]))
  {
    hide Messages;
    assert UntilEmpty(all)[1..] == UntilEmpty(all[1..]);
  }

  lemma {:induction false} DeliveredStream(batches: seq<seq<byte>>, ms: seq<Message>, behind: seq<seq<byte>>)
    requires Delivers(batches, ms)
    ensures Stream(UntilEmpty(batches + behind)) == ms + Stream(UntilEmpty(behind))
    decreases |batches|
  {
    hide Messages, MessagesEncode, Stream, UntilEmpty;
    var all := batches + behind;
    if batches == [] {
      assert all == behind && ms == [];
      assert ms + Stream(UntilEmpty(behind)) == Stream(UntilEmpty(behind));
    } else {
      var k :| CutAt(batches[0], ms, k) && Delivers(batches[1..], ms[k..]);
      DeliveredStream(batches[1..], ms[k..], behind);
      MessagesRoundTrip(ms[..k], batches[0]);
      assert all[0] == batches[0] && all[1..] == batches[1..] + behind;
      StreamOfFirst(all);
      SumsAssociate(ms[..k], ms[k..], Stream(UntilEmpty(behind)));
      assert ms == ms[..k] + ms[k..];
    }
  }

  /** Every message NLMSG_OK accepts is followed by its padding inside the batch. */
  predicate Padded(b: seq<byte>)
    decreases |b|
  {
    NlmsgOk(b) ==> Align4(U32At(b, 0)) <= |b| && Padded(NlmsgNext(b))
  }

  lemma AlignedWithin(n: nat, size: nat)
    requires n <= size && size % 4 == 0
    ensures Align4(n) <= size && (size - Align4(n)) % 4 == 0
  {
    assert size == size / 4 * 4;
  }

  /** The kernel's batches are a multiple of 4 bytes long, which is enough. */
  lemma {:induction false} AlignedIsPadded(b: seq<byte>)
    requires |b| % 4 == 0
    ensures Padded(b)
    decreases |b|
  {
    if NlmsgOk(b) {
      AlignedWithin(U32At(b, 0), |b|);
      AlignedIsPadded(NlmsgNext(b));
    }
  }

  const SIZE_MAX := 0xFFFF_FFFF_FFFF_FFFF

  /** `len -= NLMSG_ALIGN(...)` on a `size_t`. */
  function SizeMinus(len: nat, n: nat): nat
    requires len <= SIZE_MAX && n <= SIZE_MAX
  {
    if n <= len then len - n else len + SIZE_MAX + 1 - n
  }

  /** The unsigned counter keeps measuring the bytes left exactly when the padding is there, and else wraps. */
  lemma SizeMinusExact(b: seq<byte>)
    requires NlmsgOk(b) && |b| < 0x8000_0000
    ensures SizeMinus(|b|, Align4(U32At(b, 0))) == |NlmsgNext(b)| <==> Align4(U32At(b, 0)) <= |b|
    ensures Align4(U32At(b, 0)) > |b| ==>
              SizeMinus(|b|, Align4(U32At(b, 0))) == |b| - Align4(U32At(b, 0)) + 18446744073709551616
  {
  }
}
