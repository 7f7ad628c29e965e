/** Message-oriented sockets: what will arrive before the next failed or timed-out receive. */
module Sockets {
  import opened Bytes

  /** What a receive into `size` bytes gets of a datagram. */
  function Received(datagram: seq<byte>, size: nat): (r: seq<byte>)
    ensures |r| <= size
  {
    if |datagram| <= size then datagram else datagram[..size]
  }

  /** The datagrams a loop takes when it stops at the first failed or empty receive. */
  function UntilEmpty(batches: seq<seq<byte>>): (taken: seq<seq<byte>>)
    ensures taken <= batches
    ensures taken == batches || batches[|taken|] == []
    ensures [] !in taken
  {
    if batches == [] || batches[0] == [] then [] else [batches[0]] + UntilEmpty(batches[1..])
  }

  /** What such a loop leaves behind the datagrams it takes and the empty one it stops at. */
  function BehindEmpty(batches: seq<seq<byte>>): (rest: seq<seq<byte>>)
    ensures if [] in batches then batches == UntilEmpty(batches) + [[]] + rest else rest == []
  {
    if batches == [] then [] else if batches[0] == [] then batches[1..] else BehindEmpty(batches[1..])
  }

  class DatagramSocket {
    var inbox: seq<seq<byte>>

    constructor (arriving: seq<seq<byte>>)
      ensures inbox == arriving
    {
      inbox := arriving;
    }

    /** `recv` and `recvfrom`: copies one datagram, cut to the buffer; -1 when nothing more arrives. */
    method Recv(buf: array<byte>) returns (n: int)
      modifies this, buf
      ensures old(inbox) == [] ==> n == -1 && inbox == []
      ensures old(inbox) != [] ==>
                && inbox == old(inbox)[1..]
                && n == |Received(old(inbox)[0], buf.Length)|
                && buf[..n] == Received(old(inbox)[0], buf.Length)
    {
      if inbox == [] {
        return -1;
      }
      var datagram := Received(inbox[0], buf.Length);
      n := |datagram|;
      inbox := inbox[1..];
      forall i | 0 <= i < n {
        buf[i] := datagram[i];
      }
    }
  }
}
