/** Where intra/udp.go falls short of what one might expect of it, and exactly when. */
module UdpFindings {
  import opened Common
  import opened UdpProtocol
  import opened UdpTheorems

  /** Connect finds an association of the same connection in the table (:124). */
  predicate Reconnects(s: State, e: Event)
    requires Enabled(s, e)
  {
    e.Insert? && s.socks[e.id].conn in s.udpConns
  }

  predicate NeverReconnects(s: State, es: seq<Event>)
    requires Executable(s, es)
    decreases |es|
  {
    es == [] || (!Reconnects(s, es[0]) && NeverReconnects(Step(s, es[0]), es[1..]))
  }

  lemma StepDisplaces(s: State, e: Event)
    requires Conserves(s) && Enabled(s, e)
    ensures s.displaced <= Step(s, e).displaced
    ensures Step(s, e).displaced == s.displaced <==> !Reconnects(s, e)
  {
    if Reconnects(s, e) {
      var id := s.udpConns[s.socks[e.id].conn];
      assert Placed(s.udpConns, s.displaced, s.log, id, s.socks[id]);
    }
  }

  /** A socket that has been displaced stays so, and open: nothing will ever close it. */
  lemma {:induction false} DisplacedForEver(s: State, es: seq<Event>, id: nat)
    requires Inv(s) && Executable(s, es) && id in s.displaced
    ensures id in Exec(s, es).displaced && id < |Exec(s, es).socks| && Exec(s, es).socks[id].open
    decreases |es|
  {
    if es == [] {
      assert Placed(s.udpConns, s.displaced, s.log, id, s.socks[id]);
    } else {
      StepKeepsInv(s, es[0]);
      StepDisplaces(s, es[0]);
      DisplacedForEver(Step(s, es[0]), es[1..], id);
    }
  }

  lemma {:induction false} DisplacesJustOnReconnect(s: State, es: seq<Event>)
    requires Inv(s) && Executable(s, es) && s.displaced == {}
    ensures Exec(s, es).displaced == {} <==> NeverReconnects(s, es)
    decreases |es|
  {
    if es != [] {
      var t := Step(s, es[0]);
      StepKeepsInv(s, es[0]);
      StepDisplaces(s, es[0]);
      if t.displaced == {} {
        DisplacesJustOnReconnect(t, es[1..]);
      } else {
        var id :| id in t.displaced;
        DisplacedForEver(t, es[1..], id);
      }
    }
  }

  /** The socket is open, and its goroutine has started, but Close cannot find it. */
  predicate Lost(s: State, id: nat) {
    id < |s.socks| && s.socks[id].open && !s.socks[id].fetch.NotStarted? && !Tabled(s.udpConns, s.socks[id].conn, id)
  }

  lemma LostIsDisplaced(s: State, id: nat)
    requires Inv(s)
    ensures Lost(s, id) <==> id in s.displaced
  {
    if id < |s.socks| {
      assert Placed(s.udpConns, s.displaced, s.log, id, s.socks[id]);
    }
  }

  /** A run loses a socket if and only if Connect was called for a connection that was in the table. */
  lemma LeakJustOnReconnect(timeout: int, now: int, es: seq<Event>)
    requires Executable(Initial(timeout, now), es)
    ensures (exists id: nat :: Lost(Exec(Initial(timeout, now), es), id)) <==>
            !NeverReconnects(Initial(timeout, now), es)
  {
    var s := Exec(Initial(timeout, now), es);
    RunKeepsInv(Initial(timeout, now), es);
    DisplacesJustOnReconnect(Initial(timeout, now), es);
    forall id: nat
      ensures Lost(s, id) <==> id in s.displaced
    {
      LostIsDisplaced(s, id);
    }
    if s.displaced != {} {
      var id :| id in s.displaced;
      assert Lost(s, id);
    }
  }

  /** One more event at the end of a run. */
  lemma {:induction false} Then(s: State, es: seq<Event>, e: Event)
    requires Executable(s, es) && Enabled(Exec(s, es), e)
    ensures Executable(s, es + [e]) && Exec(s, es + [e]) == Step(Exec(s, es), e)
    decreases |es|
  {
    if es == [] {
      assert es + [e] == [e] && [e][1..] == [];
    } else {
      Then(Step(s, es[0]), es[1..], e);
      assert (es + [e])[1..] == es[1..] + [e];
    }
  }

  lemma Next(s: State, e: Event) returns (t: State)
    requires Reachable(s) && Enabled(s, e)
    ensures Reachable(t) && t == Step(s, e)
  {
    var timeout: int, now: int, es: seq<Event> :|
      Executable(Initial(timeout, now), es) && s == Exec(Initial(timeout, now), es);
    Then(Initial(timeout, now), es, e);
    t := Step(s, e);
  }

  const WAITING := Sock(7, true, Some(30), 0, 0, Reading)
  const TIMED_OUT := Sock(7, true, Some(30), 0, 0, Exiting(Some(1)))
  const RENEWED := Sock(7, true, Some(60), 0, 0, Exiting(Some(1)))

  lemma OpenSocket() returns (s: State)
    ensures Reachable(s) && s == State(30, 0, map[], [Sock(7, true, None, 0, 0, NotStarted)], map[], [], {})
  {
    s := Initial(30, 0);
    assert Executable(s, []) && s == Exec(s, []);
    s := Next(s, Open(7));
  }

  /** A connection whose goroutine waits for input. */
  lemma WaitingSocket() returns (s: State)
    ensures Reachable(s) && s == State(30, 0, map[7 := 0], [WAITING], map[], [Touched(0, 0)], {})
  {
    s := OpenSocket();
    s := Next(s, Insert(0));
    assert s == State(30, 0, map[7 := 0], [Sock(7, true, None, 0, 0, Arming)], map[], [], {});
    s := Next(s, Arm(0));
  }

  /** Nothing has come in for 30 seconds, and the read has just timed out. */
  lemma IdleSocket() returns (s: State)
    ensures Reachable(s)
    ensures s == State(30, 30, map[7 := 0], [TIMED_OUT], map[], [Touched(0, 0), Expired(0, 30)], {})
  {
    s := WaitingSocket();
    s := Next(s, Tick(30));
    assert s == State(30, 30, map[7 := 0], [WAITING], map[], [Touched(0, 0)], {});
    s := Next(s, Expire(0));
  }

  /** ReceiveTo has come since. */
  lemma RevivedSocket() returns (s: State)
    ensures Reachable(s) && s.timeout == 30 && s.now == 30 && s.udpConns == map[7 := 0] && s.socks == [RENEWED]
    ensures s.log == [Touched(0, 0), Expired(0, 30), Touched(0, 30)]
  {
    s := IdleSocket();
    s := Next(s, Receive(1, 7, 5, false));
    assert s.calls == map[1 := Received(0, 5, false)];
    s := Next(s, Touch(1));
  }

  /** A removal after a timeout can come sooner than the timeout after the last activity: ReceiveTo finds
      the association, and sets its deadline, after the read has timed out. */
  lemma EarlyRemoval() returns (s: State)
    ensures Reachable(s) && s.timeout == 30 && |s.log| == 4
    ensures s.log[2] == Touched(0, 30) && s.log[3] == Removed(0, 30, 0, 0, Fetch(0, Some(1)))
    ensures !Idle(s.log, s.timeout, 3, 0, 30)
  {
    s := RevivedSocket();
    s := Next(s, FetchClose(0));
    assert s.log[2] == Touched(0, 30);
  }

  // Connecting a connection twice

  /** The same connection is connected again while it is in the table: socket 0 is lost. */
  lemma LostSocket() returns (s: State)
    ensures Reachable(s) && Lost(s, 0) && s.displaced == {0}
  {
    s := WaitingSocket();
    s := Next(s, Open(7));
    assert s.socks == [WAITING, Sock(7, true, None, 0, 0, NotStarted)] && s.displaced == {};
    s := Next(s, Insert(1));
  }

  /** The idle connection is closed by a caller, while its goroutine is still to close it. */
  lemma ClosedSocket() returns (s: State)
    ensures Reachable(s) && s.timeout == 30 && s.now == 30 && s.calls == map[] && s.displaced == {}
    ensures s.udpConns == map[] && s.socks == [TIMED_OUT.(open := false)]
    ensures s.log == [Touched(0, 0), Expired(0, 30), Removed(0, 30, 0, 0, Caller)]
  {
    s := IdleSocket();
    s := Next(s, CloseCall(1, 7));
    assert s.calls == map[1 := Closing(7, Caller)];
    s := Next(s, CloseBody(1));
  }

  /** And connected again. */
  lemma ReopenedSocket() returns (s: State)
    ensures Reachable(s) && s.timeout == 30 && s.now == 30 && s.displaced == {} && s.udpConns == map[7 := 1]
    ensures s.socks == [TIMED_OUT.(open := false), Sock(7, true, Some(60), 0, 0, Reading)]
    ensures s.log == [Touched(0, 0), Expired(0, 30), Removed(0, 30, 0, 0, Caller), Touched(1, 30)]
  {
    s := ClosedSocket();
    s := Next(s, Open(7));
    assert s.socks == [TIMED_OUT.(open := false), Sock(7, true, None, 0, 0, NotStarted)];
    s := Next(s, Insert(1));
    assert s.socks == [TIMED_OUT.(open := false), Sock(7, true, None, 0, 0, Arming)];
    s := Next(s, Arm(1));
  }

  /** The first goroutine then closes the second socket, at the moment of its last activity, although no
      Connect has ever found its connection in the table. */
  lemma RemovedByAnother() returns (s: State)
    ensures Reachable(s) && s.timeout == 30 && |s.log| == 5 && s.displaced == {}
    ensures s.log[3] == Touched(1, 30) && s.log[4] == Removed(1, 30, 0, 0, Fetch(0, Some(1)))
    ensures !Idle(s.log, s.timeout, 4, 1, 30)
  {
    s := ReopenedSocket();
    s := Next(s, FetchClose(0));
    assert s.log[3] == Touched(1, 30);
  }

  // Mixed use

  /** A DNS query is at the DNS server. */
  lemma AskingSocket() returns (s: State)
    ensures Reachable(s)
    ensures s == State(30, 0, map[7 := 0], [WAITING], map[1 := Resolving(0)], [Touched(0, 0), Touched(0, 0)], {})
  {
    s := WaitingSocket();
    s := Next(s, Receive(1, 7, 40, true));
    assert s == State(30, 0, map[7 := 0], [WAITING], map[1 := Received(0, 40, true)], [Touched(0, 0)], {});
    s := Next(s, Touch(1));
  }

  /** Its answer has come, and the socket, which is unused, is to be closed. */
  lemma AnsweredSocket() returns (s: State)
    ensures Reachable(s)
    ensures s == State(30, 0, map[7 := 0], [WAITING], map[1 := Closing(7, Doh(0, 2))],
                       [Touched(0, 0), Touched(0, 0), Answered(0)], {})
  {
    s := AskingSocket();
    s := Next(s, Resolved(1));
  }

  /** A packet for another server comes before that. */
  lemma BusySocket() returns (s: State)
    ensures Reachable(s)
    ensures s == State(30, 0, map[7 := 0], [WAITING], map[1 := Closing(7, Doh(0, 2)), 2 := Sending(0, 5)],
                       [Touched(0, 0), Touched(0, 0), Answered(0), Touched(0, 0)], {})
  {
    s := AnsweredSocket();
    s := Next(s, Receive(2, 7, 5, false));
    assert s.calls == map[1 := Closing(7, Doh(0, 2)), 2 := Received(0, 5, false)];
    s := Next(s, Touch(2));
  }

  /** And is sent through the socket. */
  lemma MixedSocket() returns (s: State)
    ensures Reachable(s) && s.timeout == 30 && s.now == 0 && s.udpConns == map[7 := 0]
    ensures s.socks == [WAITING.(upload := 5)] && s.calls == map[1 := Closing(7, Doh(0, 2))]
    ensures s.log == [Touched(0, 0), Touched(0, 0), Answered(0), Touched(0, 0), Up(0, 5)]
  {
    s := BusySocket();
    s := Next(s, Send(2));
    assert s.calls == map[1 := Closing(7, Doh(0, 2))];
  }

  /** doDoh can close a socket that is in use by then: its test and its Close are two steps. */
  lemma MixedUseIsClosed() returns (s: State)
    ensures Reachable(s) && |s.log| == 6 && s.log[2] == Answered(0) && s.log[4] == Up(0, 5)
    ensures s.log[5] == Removed(0, 0, 5, 0, Doh(0, 2)) && |s.socks| == 1 && !s.socks[0].open
  {
    s := MixedSocket();
    s := Next(s, CloseBody(1));
  }
}
