/** intra/split/direct_split.go: a connection that always splits its first upstream segment. */
module SplitterObject {
  import opened Common
  import opened SplitHello
  import opened RetryProtocol
  import opened Sockets

  /** What the random generator and the socket do during one Write: the cut, and the results of the
      first and (if there is one) the second write to the socket. */
  datatype Outcome = Outcome(r: nat, n1: nat, err1: bool, n2: nat, err2: bool)

  predicate Possible(o: Outcome, used: bool, b: seq<byte>) {
    if used then WriteContract(b, o.n1, o.err1)
    else
      && SplitChoice(o.r)
      && WriteContract(Split(b, o.r).0, o.n1, o.err1)
      && WriteContract(Split(b, o.r).1, o.n2, o.err2)
  }

  /** The first `ns[i]` bytes of each `bs[i]`, in order. */
  function Prefixes(bs: seq<seq<byte>>, ns: seq<nat>): seq<byte>
    requires |bs| == |ns| && forall i :: 0 <= i < |bs| ==> ns[i] <= |bs[i]|
  {
    if bs == [] then [] else Prefixes(bs[..|bs| - 1], ns[..|bs| - 1]) + bs[|bs| - 1][..ns[|bs| - 1]]
  }

  lemma OneMorePrefix(bs: seq<seq<byte>>, i: nat, ns: seq<nat>, n: nat)
    requires |ns| == i < |bs| && n <= |bs[i]| && forall j :: 0 <= j < i ==> ns[j] <= |bs[j]|
    ensures Prefixes(bs[..i + 1], ns + [n]) == Prefixes(bs[..i], ns) + bs[i][..n]
  {
    assert bs[..i + 1][..i] == bs[..i] && (ns + [n])[..i] == ns;
  }

  /** What a source returns for one Read. */
  datatype Pull = Pull(data: seq<byte>, err: bool)

  function Pulled(source: seq<Pull>): seq<byte> {
    if source == [] then [] else Pulled(source[..|source| - 1]) + source[|source| - 1].data
  }

  lemma {:induction false} PulledGrows(source: seq<Pull>, k: nat)
    requires k <= |source|
    ensures Pulled(source[..k]) <= Pulled(source)
  {
    if k == |source| {
      assert source[..k] == source;
    } else {
      var init := source[..|source| - 1];
      PulledGrows(init, k);
      assert init[..k] == source[..k];
    }
  }

  lemma OnePull(source: seq<Pull>, k: nat)
    requires k < |source|
    ensures Pulled(source[..k + 1]) == Pulled(source[..k]) + source[k].data
  {
    assert source[..k + 1][..k] == source[..k];
  }

  /** The first `n` bytes of the pull `k`, after all the pulls before it. */
  lemma PulledPrefix(source: seq<Pull>, k: nat, n: nat)
    requires k < |source| && n <= |source[k].data|
    ensures |Pulled(source[..k])| + n <= |Pulled(source)|
    ensures Pulled(source[..k]) + source[k].data[..n] == Pulled(source)[..|Pulled(source[..k])| + n]
  {
    OnePull(source, k);
    PulledGrows(source, k + 1);
  }

  lemma {:induction false} PulledFront(source: seq<Pull>)
    requires source != []
    ensures Pulled(source) == source[0].data + Pulled(source[1..])
  {
    var n := |source| - 1;
    if n > 0 {
      PulledFront(source[..n]);
      assert source[..n][1..] == source[1..][..n - 1];
    }
  }

  lemma FrontPrefix(sent: seq<byte>, x: seq<byte>, y: seq<byte>, m: nat)
    requires m <= |y|
    ensures sent + x + y[..m] == sent + (x + y)[..|x| + m]
  {
    assert (x + y)[..|x| + m] == x + y[..m];
  }

  lemma FrontPart(x: seq<byte>, y: seq<byte>, n: nat)
    requires n <= |x|
    ensures (x + y)[..n] == x[..n]
  {
  }

  /** Nothing fails: a source error comes last and without data. */
  predicate Clean(source: seq<Pull>, os: seq<Outcome>)
    requires |os| == |source|
  {
    forall i :: 0 <= i < |source| ==>
      && !os[i].err1 && !os[i].err2
      && (source[i].err ==> source[i].data == [] && i == |source| - 1)
  }

  /** The writes of a whole source, the first of which is split unless `used`. */
  predicate AllPossible(source: seq<Pull>, os: seq<Outcome>, used: bool)
    requires |os| == |source|
  {
    forall i :: 0 <= i < |source| ==> Possible(os[i], used || i > 0, source[i].data)
  }

  lemma RestOfSource(source: seq<Pull>, os: seq<Outcome>, used: bool)
    requires |os| == |source| && source != [] && AllPossible(source, os, used)
    ensures AllPossible(source[1..], os[1..], true)
    ensures Clean(source, os) ==> Clean(source[1..], os[1..])
  {
  }

  /** What got through of the two parts is a prefix of the whole: all of it, unless a write failed. */
  lemma PiecesRejoin(b: seq<byte>, b1: seq<byte>, b2: seq<byte>, o: Outcome)
    requires b1 + b2 == b && WriteContract(b1, o.n1, o.err1) && WriteContract(b2, o.n2, o.err2)
    ensures b1[..o.n1] == b[..o.n1]
    ensures !o.err1 ==> b1[..o.n1] == b1 && o.n1 + o.n2 <= |b| && b1[..o.n1] + b2[..o.n2] == b[..o.n1 + o.n2]
    ensures !o.err1 && !o.err2 ==> b2[..o.n2] == b2 && o.n1 + o.n2 == |b|
  {
  }

  class Splitter {
    var conn: TcpConn
    var used: bool

    constructor ()
      ensures !used && fresh(conn) && conn.View() == FRESH && conn.segments == []
    {
      used := false;
      conn := new TcpConn();
    }

    /** The two writes of the first call (:54-62). */
    method WriteParts(ghost b: seq<byte>, b1: seq<byte>, b2: seq<byte>, o: Outcome) returns (n: nat, err: bool)
      requires b1 + b2 == b && WriteContract(b1, o.n1, o.err1) && WriteContract(b2, o.n2, o.err2)
      modifies conn`sent, conn`segments
      ensures WriteContract(b, n, err) && err == (o.err1 || o.err2)
      ensures conn.sent == old(conn.sent) + b[..n]
      ensures |conn.segments| <= |old(conn.segments)| + 2
      ensures !err ==> conn.segments == old(conn.segments) + [b1, b2]
    {
      PiecesRejoin(b, b1, b2, o);
      conn.Write(b1, o.n1);
      if o.err1 {
        return o.n1, true;
      }
      conn.Write(b2, o.n2);
      return o.n1 + o.n2, o.err2;
    }

    /** The socket is sent exactly the bytes reported as written.  The first call, and no other, hands
        them over in two writes that rejoin to the argument. */
    method Write(b: seq<byte>, o: Outcome) returns (n: nat, err: bool)
      requires Possible(o, used, b)
      modifies this`used, conn`sent, conn`segments
      ensures used && conn == old(conn)
      ensures WriteContract(b, n, err) && err == (o.err1 || (!old(used) && o.err2))
      ensures conn.sent == old(conn.sent) + b[..n]
      ensures old(used) ==> conn.segments == old(conn.segments) + [b[..n]]
      ensures !old(used) ==> |conn.segments| <= |old(conn.segments)| + 2
      ensures !old(used) && !err ==>
                && conn.segments == old(conn.segments) + [Split(b, o.r).0, Split(b, o.r).1]
                && Split(b, o.r).0 + Split(b, o.r).1 == b
    {
      if used {
        conn.Write(b, o.n1);
        return o.n1, o.err1;
      }
      used := true;
      var parts := Split(b, o.r);
      n, err := WriteParts(b, parts.0, parts.1, o);
    }

    /** Any run of writes, with any pattern of errors. */
    method WriteAll(bs: seq<seq<byte>>, os: seq<Outcome>) returns (ns: seq<nat>)
      requires |os| == |bs|
      requires forall i :: 0 <= i < |bs| ==> Possible(os[i], used || i > 0, bs[i])
      modifies this`used, conn`sent, conn`segments
      ensures |ns| == |bs| && forall i :: 0 <= i < |bs| ==> ns[i] <= |bs[i]|
      ensures conn.sent == old(conn.sent) + Prefixes(bs, ns)
      ensures |conn.segments| <= |old(conn.segments)| + |bs| + (if old(used) || bs == [] then 0 else 1)
      ensures old(used) ==> |conn.segments| == |old(conn.segments)| + |bs|
    {
      ns := [];
      for i := 0 to |bs|
        invariant conn == old(conn) && (i > 0 ==> used) && (i == 0 ==> used == old(used))
        invariant |ns| == i && forall j :: 0 <= j < i ==> ns[j] <= |bs[j]|
        invariant conn.sent == old(conn.sent) + Prefixes(bs[..i], ns)
        invariant |conn.segments| <= |old(conn.segments)| + i + (if old(used) || i == 0 then 0 else 1)
        invariant old(used) ==> |conn.segments| == |old(conn.segments)| + i
      {
        ghost var segments := conn.segments;
        var n, err := Write(bs[i], os[i]);
        assert |conn.segments| <= |segments| + (if i > 0 || old(used) then 1 else 2);
        OneMorePrefix(bs, i, ns, n);
        ns := ns + [n];
      }
      assert bs[..|bs|] == bs;
    }

    /** net.TCPConn's own ReadFrom: copies until the source or the socket fails. */
    method SocketReadFrom(source: seq<Pull>, os: seq<Outcome>) returns (bytes: nat)
      requires |os| == |source| && AllPossible(source, os, true)
      modifies conn`sent, conn`segments
      ensures bytes <= |Pulled(source)| && conn.sent == old(conn.sent) + Pulled(source)[..bytes]
      ensures Clean(source, os) ==> bytes == |Pulled(source)|
    {
      bytes := 0;
      for i := 0 to |source|
        invariant bytes == |Pulled(source[..i])|
        invariant conn.sent == old(conn.sent) + Pulled(source[..i])
      {
        var p, n, err := source[i], os[i].n1, os[i].err1;
        conn.Write(p.data, n);
        OnePull(source, i);
        PulledPrefix(source, i, n);
        bytes := bytes + n;
        if err || p.err {
          assert i + 1 == |source| ==> source[..i + 1] == source;
          return;
        }
      }
      assert source[..|source|] == source;
    }

    /** retrier.go, copyOnce: a source's error is returned, and data that came with it dropped. */
    method CopyOnce(p: Pull, o: Outcome) returns (n: nat, err: bool)
      requires Possible(o, used, p.data)
      modifies this`used, conn`sent, conn`segments
      ensures n <= |p.data| && conn.sent == old(conn.sent) + p.data[..n]
      ensures err <==> p.err || o.err1 || (!old(used) && o.err2)
      ensures !err ==> used && n == |p.data|
      ensures p.err ==> n == 0
    {
      if p.err {
        return 0, true;
      }
      n, err := Write(p.data, o);
    }

    /** What ReadFrom reports is exactly what it has sent, and that is the source's own bytes from the
        start.  It is all of them when nothing fails. */
    method ReadFrom(source: seq<Pull>, os: seq<Outcome>) returns (bytes: nat)
      requires |os| == |source| && AllPossible(source, os, used)
      modifies this`used, conn`sent, conn`segments
      ensures bytes <= |Pulled(source)| && conn.sent == old(conn.sent) + Pulled(source)[..bytes]
      ensures Clean(source, os) ==> bytes == |Pulled(source)|
    {
      if used {
        bytes := SocketReadFrom(source, os);
        return;
      }
      if |source| == 0 {
        return 0;
      }
      var x := source[0].data;
      ghost var y := Pulled(source[1..]);
      var n, err := CopyOnce(source[0], os[0]);
      PulledFront(source);
      FrontPart(x, y, n);
      if err {
        return n;
      }
      assert x[..n] == x;
      RestOfSource(source, os, old(used));
      var m := SocketReadFrom(source[1..], os[1..]);
      FrontPrefix(old(conn.sent), x, y, m);
      return n + m;
    }
  }
}
