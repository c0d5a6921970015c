/** The sockets that retrier.go and direct_split.go write to, as objects. */
module Sockets {
  import opened Common
  import opened RetryProtocol

  /** net.TCPConn.  What the network decides (how much of a write goes through, what a read
      returns) is an argument. */
  class TcpConn {
    var sent: seq<byte>
    var received: seq<byte>
    var shut: set<Half>
    var closed: bool
    var readDeadline: Deadline
    var writeDeadline: Deadline
    ghost var segments: seq<seq<byte>>  // the argument of every Write, as far as it was taken

    ghost function View(): Conn
      reads this
    {
      Conn(sent, received, shut, closed, readDeadline, writeDeadline)
    }

    constructor ()
      ensures View() == FRESH && segments == []
    {
      sent, received, shut, closed := [], [], {}, false;
      readDeadline, writeDeadline := None, None;
      segments := [];
    }

    method Write(b: seq<byte>, n: nat)
      requires n <= |b|
      modifies this`sent, this`segments
      ensures View() == old(View()).(sent := old(sent) + b[..n])
      ensures segments == old(segments) + [b[..n]]
    {
      sent := sent + b[..n];
      segments := segments + [b[..n]];
    }

    method Read(data: seq<byte>)
      modifies this`received
      ensures View() == old(View()).(received := old(received) + data)
    {
      received := received + data;
    }

    method CloseHalf(h: Half)
      modifies this`shut
      ensures View() == old(View()).(shut := old(shut) + {h})
    {
      shut := shut + {h};
    }

    method Close()
      modifies this`closed
      ensures View() == old(View()).(closed := true)
    {
      closed := true;
    }

    method SetReadDeadline(t: Deadline)
      modifies this`readDeadline
      ensures View() == old(View()).(readDeadline := t)
    {
      readDeadline := t;
    }

    method SetWriteDeadline(t: Deadline)
      modifies this`writeDeadline
      ensures View() == old(View()).(writeDeadline := t)
    {
      writeDeadline := t;
    }
  }
}
