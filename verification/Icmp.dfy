/** The ICMP Echo exchange of ping_monitor_socket4.cpp and ping_monitor_socket6.cpp (RFC 792, RFC 4443). */
module Icmp {
  import opened Bytes
  import opened InternetChecksum
  import opened Sockets

  const ECHO_REPLY: byte := 0
  const ECHO_REQUEST: byte := 8
  const ECHO_REQUEST6: byte := 128
  const ECHO_REPLY6: byte := 129
  const HEADER := 8
  const PACKET := 24
  const RECV_BUFFER := 512

  /** An ICMP message: type, code 0, checksum, identifier, sequence number and payload. */
  function Message(kind: byte, sum: u16, id: u16, number: u16, payload: seq<byte>): (m: seq<byte>)
    ensures |m| == HEADER + |payload|
  {
    [kind, 0] + U16Bytes(sum) + U16Bytes(id) + U16Bytes(number) + payload
  }

  function PingPayload(): seq<byte> {
    seq(16, i => 0x42)
  }

  /** The echo request sendPing4 is meant to put on the wire. */
  function EchoRequest(id: u16, number: u16): seq<byte> {
    var blank := Message(ECHO_REQUEST, 0, id, number, PingPayload());
    Message(ECHO_REQUEST, Not16(OnesSumLE(blank)), id, number, PingPayload())
  }

  /** `uint16_t` post-increment. */
  function Next16(x: u16): u16 {
    if x == 0xFFFF then 0 else x + 1
  }

  lemma StoreBetween(before: seq<byte>, old16: seq<byte>, rest: seq<byte>, x: u16)
    requires |old16| == 2
    ensures StoreU16(before + old16 + rest, |before|, x) == before + [x % 0x100, x / 0x100] + rest
  {
  }

  lemma StoreIntoMessage(kind: byte, sum: u16, id: u16, number: u16, payload: seq<byte>)
    ensures StoreU16(Message(kind, 0, id, number, payload), 2, sum) == Message(kind, sum, id, number, payload)
    ensures U16At(Message(kind, 0, id, number, payload), 2) == 0
  {
    var rest := U16Bytes(id) + U16Bytes(number) + payload;
    assert Message(kind, 0, id, number, payload) == [kind, 0] + [0, 0] + rest;
    assert Message(kind, sum, id, number, payload) == [kind, 0] + U16Bytes(sum) + rest;
    StoreBetween([kind, 0], [0, 0], rest, sum);
  }

  method FillPing(packet: array<byte>, kind: byte, pid: u16, number: u16)
    requires packet.Length == PACKET
    modifies packet
    ensures packet[..] == Message(kind, 0, pid, number, PingPayload())
  {
    packet[0], packet[1] := kind, 0;
    packet[2], packet[3] := 0, 0;
    packet[4], packet[5] := pid % 0x100, pid / 0x100;
    packet[6], packet[7] := number % 0x100, number / 0x100;
    HeaderOf(packet[..HEADER], kind, pid, number);
    FillPayload(packet);
    assert packet[..] == packet[..HEADER] + packet[HEADER..];
  }

  lemma HeaderOf(header: seq<byte>, kind: byte, pid: u16, number: u16)
    requires |header| == HEADER && header[..4] == [kind, 0, 0, 0]
    requires header[4..6] == U16Bytes(pid) && header[6..] == U16Bytes(number)
    ensures header + PingPayload() == Message(kind, 0, pid, number, PingPayload())
  {
    hide PingPayload;
    assert U16Bytes(0) == [0, 0];
    assert header == header[..4] + header[4..6] + header[6..];
  }

  method FillPayload(packet: array<byte>)
    requires packet.Length == PACKET
    modifies packet
    ensures packet[..HEADER] == old(packet[..HEADER]) && packet[HEADER..] == PingPayload()
  {
    for i := HEADER to PACKET
      invariant packet[..HEADER] == old(packet[..HEADER])
      invariant forall k :: HEADER <= k < i ==> packet[k] == 0x42
    {
      packet[i] := 0x42;
    }
  }

  /**
   * The packet-building half of sendPing4: fills the struct field by field, checksums it in place
   * and advances the 16-bit sequence counter.
   */
  method BuildPing4(pid: u16, number: u16) returns (packet: array<byte>, next: u16)
    ensures packet[..] == EchoRequest(pid, number)
    ensures packet.Length == 24 && packet[0] == 8 && packet[1] == 0
    ensures U16At(packet[..], 4) == pid && U16At(packet[..], 6) == number
    ensures forall k :: 8 <= k < 24 ==> packet[k] == 0x42
    ensures OnesSumBE(packet[..]) == 0xFFFF
    ensures next == (number + 1) % 65536
  {
    hide EchoRequest, Message, U16At, OnesSumBE, OnesSumLE, StoreU16;
    packet := new byte[PACKET](i => 0);
    next := Next16(number);
    FillPing(packet, ECHO_REQUEST, pid, number);
    var sum := PingChecksum(packet);
    StoreInPlace(packet, 2, sum);
    StoredChecksum(pid, number, sum);
    RequestLayout(pid, number);
    assert forall k :: 0 <= k < 24 ==> packet[k] == packet[..][k];
  }

  /** The packet of sendPing6, whose checksum the kernel fills in. */
  method BuildPing6(pid: u16, number: u16) returns (packet: array<byte>, next: u16)
    ensures packet.Length == 24 && packet[0] == 128 && packet[1] == 0 && packet[2] == 0 && packet[3] == 0
    ensures U16At(packet[..], 4) == pid && U16At(packet[..], 6) == number
    ensures forall k :: 8 <= k < 24 ==> packet[k] == 0x42
    ensures next == (number + 1) % 65536
  {
    hide Message, U16At;
    packet := new byte[PACKET](i => 0);
    next := Next16(number);
    FillPing(packet, ECHO_REQUEST6, pid, number);
    FieldsOf(ECHO_REQUEST6, 0, pid, number, PingPayload());
    assert forall k :: 0 <= k < 24 ==> packet[k] == packet[..][k];
    assert forall k :: 8 <= k < 24 ==> packet[k] == packet[..][8..][k - 8];
  }

  /** The request byte by byte, its checksum aside. */
  lemma RequestLayout(pid: u16, number: u16)
    ensures var b := EchoRequest(pid, number);
            && |b| == 24 && b[0] == 8 && b[1] == 0
            && U16At(b, 4) == pid && U16At(b, 6) == number
            && forall k :: 8 <= k < 24 ==> b[k] == 0x42
  {
    hide OnesSumLE, Not16, Message, U16At;
    var blank := Message(ECHO_REQUEST, 0, pid, number, PingPayload());
    FieldsOf(ECHO_REQUEST, Not16(OnesSumLE(blank)), pid, number, PingPayload());
    var b := EchoRequest(pid, number);
    assert forall k :: 8 <= k < 24 ==> b[k] == b[8..][k - 8];
  }

  lemma FieldsOf(kind: byte, sum: u16, id: u16, number: u16, payload: seq<byte>)
    ensures var m := Message(kind, sum, id, number, payload);
            && m[0] == kind && m[1] == 0 && m[2] == sum % 256 && m[3] == sum / 256
            && U16At(m, 4) == id && U16At(m, 6) == number && m[8..] == payload
  {
    var m := Message(kind, sum, id, number, payload);
    assert U16At(m, 4) == U16At(U16Bytes(id), 0);
    assert U16At(m, 6) == U16At(U16Bytes(number), 0);
  }

  method StoreInPlace(packet: array<byte>, at: nat, x: u16)
    requires at + 2 <= packet.Length
    modifies packet
    ensures packet[..] == StoreU16(old(packet[..]), at, x)
  {
    packet[at], packet[at + 1] := x % 0x100, x / 0x100;
  }

  method PingChecksum(packet: array<byte>) returns (sum: u16)
    requires packet.Length == PACKET
    ensures sum == Not16(OnesSumLE(packet[..]))
  {
    assert packet[..PACKET] == packet[..];
    sum := Checksum(packet, PACKET);
    NoOverflowUpTo131074(packet[..]);
  }

  lemma StoredChecksum(pid: u16, number: u16, sum: u16)
    requires sum == Not16(OnesSumLE(Message(ECHO_REQUEST, 0, pid, number, PingPayload())))
    ensures StoreU16(Message(ECHO_REQUEST, 0, pid, number, PingPayload()), 2, sum) == EchoRequest(pid, number)
    ensures OnesSumBE(EchoRequest(pid, number)) == 0xFFFF
  {
    StoreIntoMessage(ECHO_REQUEST, sum, pid, number, PingPayload());
    SelfVerifying(Message(ECHO_REQUEST, 0, pid, number, PingPayload()), 2);
  }

  // ---------- Replies ----------

  function IpHeaderLength(datagram: seq<byte>): int
    requires |datagram| > 0
  {
    datagram[0] % 0x10 * 4
  }

  /** isMatchingReply4: an IPv4 raw socket delivers the IP header too. */
  predicate IsMatchingReply4(buf: seq<byte>, n: int, pid: u16)
    requires 0 < n <= |buf|
  {
    var header := IpHeaderLength(buf);
    n >= header + HEADER && buf[header] == ECHO_REPLY && U16At(buf, header + 4) == pid
  }

  /** isMatchingReply6: an ICMPv6 raw socket delivers the ICMP message alone. */
  predicate IsMatchingReply6(buf: seq<byte>, n: int, pid: u16)
    requires 0 < n <= |buf|
  {
    n >= HEADER && buf[0] == ECHO_REPLY6 && U16At(buf, 4) == pid
  }

  datatype Family = V4 | V6

  predicate IsMatchingReply(family: Family, buf: seq<byte>, n: int, pid: u16)
    requires 0 < n <= |buf|
  {
    match family
    case V4 => IsMatchingReply4(buf, n, pid)
    case V6 => IsMatchingReply6(buf, n, pid)
  }

  predicate Accepted(family: Family, datagram: seq<byte>, pid: u16) {
    var r := Received(datagram, RECV_BUFFER);
    r != [] && IsMatchingReply(family, r, |r|, pid)
  }

  /** An ICMP message of any type and code. */
  function AnyMessage(kind: byte, code: byte, sum: u16, id: u16, number: u16, payload: seq<byte>): seq<byte> {
    [kind, code] + U16Bytes(sum) + U16Bytes(id) + U16Bytes(number) + payload
  }

  /**
   * Behind an IPv4 header of any length (its low nibble counts words of four bytes), a message is
   * accepted exactly when it is an Echo Reply (0) with this process's identifier: of any code, sequence
   * number and payload, and whatever is cut off behind 512 bytes. Our own request is not.
   */
  lemma ReplyAccepted4(
    ip: seq<byte>, kind: byte, code: byte, sum: u16, id: u16, number: u16, payload: seq<byte>, pid: u16)
    requires |ip| > 0 && |ip| == 4 * (ip[0] % 16)
    ensures Accepted(V4, ip + AnyMessage(kind, code, sum, id, number, payload), pid) <==> kind == 0 && id == pid
  {
    var m := AnyMessage(kind, code, sum, id, number, payload);
    var d := ip + m;
    var got := Received(d, RECV_BUFFER);
    assert |got| >= |ip| + 8 && got[0] == ip[0];
    assert got[|ip|] == m[0] && got[|ip| + 4] == m[4] && got[|ip| + 5] == m[5];
    assert U16At(got, |ip| + 4) == U16At(m, 4) == U16At(U16Bytes(id), 0);
  }

  /** A datagram too short for the header it announces and an ICMP header is rejected. */
  lemma ShortRejected4(datagram: seq<byte>, pid: u16)
    requires datagram != [] && |datagram| < 4 * (datagram[0] % 16) + 8
    ensures !Accepted(V4, datagram, pid)
  {
  }

  /** ICMPv6 comes without an IP header, and its Echo Reply is type 129. */
  lemma ReplyAccepted6(kind: byte, code: byte, sum: u16, id: u16, number: u16, payload: seq<byte>, pid: u16)
    ensures Accepted(V6, AnyMessage(kind, code, sum, id, number, payload), pid) <==> kind == 129 && id == pid
  {
    var m := AnyMessage(kind, code, sum, id, number, payload);
    var got := Received(m, RECV_BUFFER);
    assert |got| >= 8 && got[0] == m[0] && got[4] == m[4] && got[5] == m[5];
    assert U16At(got, 4) == U16At(m, 4) == U16At(U16Bytes(id), 0);
  }

  lemma ShortRejected6(datagram: seq<byte>, pid: u16)
    requires |datagram| < 8
    ensures !Accepted(V6, datagram, pid)
  {
  }

  /** What the buffer held before a receive does not matter. */
  lemma StaleIgnored(family: Family, got: seq<byte>, stale: seq<byte>, pid: u16)
    requires got != []
    ensures IsMatchingReply(family, got + stale, |got|, pid) == IsMatchingReply(family, got, |got|, pid)
  {
    MatchReadsOnlyReceived(family, got + stale, |got|, pid);
    assert (got + stale)[..|got|] == got;
  }

  /** Some datagram is accepted, and no empty datagram cuts the drain short before it. */
  ghost predicate SomeReply(family: Family, inbox: seq<seq<byte>>, pid: u16) {
    exists k :: 0 <= k < |inbox| && Accepted(family, inbox[k], pid) && forall j :: 0 <= j < k ==> inbox[j] != []
  }

  /** What one call leaves: it takes datagrams up to the first accepted or empty one. */
  function Unread(family: Family, inbox: seq<seq<byte>>, pid: u16): seq<seq<byte>> {
    if inbox == [] then []
    else if inbox[0] == [] || Accepted(family, inbox[0], pid) then inbox[1..]
    else Unread(family, inbox[1..], pid)
  }

  /** Datagrams that are no reply are skipped, and what lies behind the reply stays for the next call. */
  lemma {:induction false} NoiseSkipped(
    family: Family, noise: seq<seq<byte>>, reply: seq<byte>, behind: seq<seq<byte>>, pid: u16)
    requires forall d | d in noise :: d != [] && !Accepted(family, d, pid)
    ensures !SomeReply(family, noise, pid) && Unread(family, noise, pid) == []
    ensures Accepted(family, reply, pid) ==>
              var inbox := noise + [reply] + behind;
              SomeReply(family, inbox, pid) && Unread(family, inbox, pid) == behind
  {
    hide Accepted;
    var inbox := noise + [reply] + behind;
    if noise != [] {
      assert forall d | d in noise[1..] :: d in noise;
      NoiseSkipped(family, noise[1..], reply, behind, pid);
      assert inbox[0] == noise[0] && inbox[1..] == noise[1..] + [reply] + behind;
    }
    if Accepted(family, reply, pid) {
      AcceptedNotEmpty(family, reply, pid);
      assert inbox[|noise|] == reply && forall j :: 0 <= j < |noise| ==> inbox[j] == noise[j];
    }
  }

  lemma AcceptedNotEmpty(family: Family, datagram: seq<byte>, pid: u16)
    requires Accepted(family, datagram, pid)
    ensures datagram != []
  {
  }

  lemma MatchReadsOnlyReceived(family: Family, buf: seq<byte>, n: int, pid: u16)
    requires 0 < n <= |buf|
    ensures IsMatchingReply(family, buf, n, pid) == IsMatchingReply(family, buf[..n], n, pid)
  {
  }

  /** recvReply4 / recvReply6 on an open socket. */
  method RecvReply(family: Family, sock: DatagramSocket, pid: u16) returns (ok: bool)
    modifies sock
    ensures ok <==> SomeReply(family, old(sock.inbox), pid)
    ensures sock.inbox == Unread(family, old(sock.inbox), pid)
  {
    var buf := new byte[RECV_BUFFER];
    ghost var all := sock.inbox;
    ghost var k := 0;
    while true
      invariant 0 <= k <= |all| && sock.inbox == all[k..]
      invariant Unread(family, sock.inbox, pid) == Unread(family, all, pid)
      invariant forall j :: 0 <= j < k ==> all[j] != [] && !Accepted(family, all[j], pid)
      decreases |sock.inbox|
    {
      var n := sock.Recv(buf);
      if n <= 0 {
        if k < |all| {
          assert sock.inbox == all[k + 1..];
        }
        return false;
      }
      assert sock.inbox == all[k + 1..];
      MatchReadsOnlyReceived(family, buf[..], n, pid);
      assert buf[..][..n] == buf[..n];
      if IsMatchingReply(family, buf[..], n, pid) {
        assert Accepted(family, all[k], pid);
        return true;
      }
      k := k + 1;
    }
  }
}
