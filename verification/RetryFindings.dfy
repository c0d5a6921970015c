/** Runs of the machine in RetryProtocol that show where the split-retry connection is not
    transparent.  RetryTheorems says exactly when it is. */
module RetryFindings {
  import opened Common
  import opened RetryProtocol
  import opened RetryTheorems

  /** One more step of a run. */
  lemma Advance(s: State, e: Event) returns (t: State)
    requires Reachable(s) && Enabled(s, e)
    ensures Reachable(t) && t == Step(s, e)
  {
    StepReachable(s, e);
    t := Step(s, e);
  }

  /** A writer that is about to write its one byte holds the lock. */
  lemma AboutToWrite(s: State) returns (t: State)
    requires Reachable(s) && s.writer == WCheck([1]) && s.mutex == Free && !s.complete
    ensures Reachable(t) && t == s.(writer := WLocked([1]), mutex := Writer)
  {
    t := Advance(s, W(WriterCheck));
    t := Advance(t, W(WriterLock));
  }

  /** The byte reaches the provisional socket. */
  lemma WritesOneByte(s: State) returns (t: State)
    requires Reachable(s) && s.writer == WLocked([1]) && !s.complete && s.net == Net(FRESH, None)
    requires s.hello == [] && s.stats == Stats(0, 0, 0, false) && s.timeout == 0
    ensures Reachable(t)
    ensures t == s.(
                   net := Net(FRESH.(sent := [1], readDeadline := Some(0)), None), hello := [1],
                   stats := Stats(1, 1, 0, false), writer := WUnlock([1], 1, false, true), trail := t.trail)
  {
    t := Advance(s, W(WriterBody(1, false, 0)));
    assert [1][..1] == [1] && [] + [1] == [1];
  }

  /** One byte is written, on a fresh connection. */
  lemma AfterOneWrite() returns (s: State)
    ensures Reachable(s)
    ensures s == Initial(0).(
                   net := Net(FRESH.(sent := [1], readDeadline := Some(0)), None), hello := [1],
                   stats := Stats(1, 1, 0, false), ledger := Ledger([1], [1], 0), trail := s.trail)
  {
    InitialReachable(0);
    s := Advance(Initial(0), W(WriteCall([1])));
    s := AboutToWrite(s);
    s := WritesOneByte(s);
    s := ReturnsFromWrite(s);
  }

  lemma ReturnsFromWrite(s: State) returns (t: State)
    requires Reachable(s) && s.writer == WUnlock([1], 1, false, true) && s.copy == None
    ensures Reachable(t) && t == s.(mutex := Free, writer := WIdle, ledger := Reported(s.ledger, [1], 1),
                                      trail := t.trail)
  {
    t := Advance(s, W(WriterUnlock));
  }

  /** CloseWrite is called and returns. */
  lemma AfterCloseWrite(s: State) returns (t: State)
    requires Reachable(s) && s.mutex == Free && s.writeCloser.CIdle? && s.net.redialed.None?
    ensures Reachable(t)
    ensures t == s.(closeFlags := s.closeFlags + {WriteHalf},
                    net := Net(s.net.provisional.(shut := s.net.provisional.shut + {WriteHalf}), None))
  {
    t := Advance(s, C(WriteHalf, CloseCall));
    t := Advance(t, C(WriteHalf, CloserLock));
    t := Advance(t, C(WriteHalf, CloserShut));
    t := Advance(t, C(WriteHalf, CloserUnlock));
  }

  /** Read is called, the socket fails, and the retry is about to dial. */
  lemma AfterFailedRead(s: State) returns (t: State)
    requires Reachable(s) && s.mutex == Free && s.reader.RIdle? && s.net.redialed.None? && !s.complete
    ensures Reachable(t)
    ensures t == s.(mutex := Reader, reader := RDial, net := Net(s.net.provisional.(closed := true), None),
                    log := s.log.(retries := s.log.retries + 1, discarded := []), trail := t.trail)
  {
    t := Advance(s, R(ReadCall));
    t := Advance(t, R(SocketRead([], true)));
    t := Advance(t, R(CheckFlag));
    t := Advance(t, R(Lock));
    t := Advance(t, R(Decide(None)));
  }

  /** The Read publishes r.conn and returns. */
  lemma AfterPublication(s: State) returns (t: State)
    requires Reachable(s) && s.reader.RPublish?
    ensures Reachable(t) && t.mutex == Free && t.reader.RIdle? && t.complete
    ensures t.net == s.net.WithCur(s.net.Cur().(readDeadline := None)) && t.closeFlags == s.closeFlags
    ensures t.writer == s.writer && t.writeCloser == s.writeCloser && t.ledger == s.ledger
    ensures t.readDeadline == s.readDeadline && t.writeDeadline == s.writeDeadline && t.log.retries == s.log.retries
  {
    t := Advance(s, R(Publish));
    t := Advance(t, R(Cleanup));
    t := Advance(t, R(Unlock));
  }

  /** The redial works, but the first write of the replay fails; the Read returns. */
  lemma AfterFailedReplay(s: State) returns (t: State)
    requires Reachable(s) && s.reader.RDial?
    ensures Reachable(t) && t.mutex == Free && t.reader.RIdle?
    ensures t.net == Net(s.net.provisional, Some(FRESH)) && t.closeFlags == s.closeFlags
    ensures t.writer == s.writer && t.writeCloser == s.writeCloser && t.ledger == s.ledger
    ensures t.writeDeadline == s.writeDeadline
  {
    t := Advance(s, R(DialOk(32)));
    t := Advance(t, R(ReplayFirst(0, true)));
    assert t.net.redialed.value.sent == [];
    t := AfterPublication(t);
  }

  /** If a write of the replay fails, the writer is told nothing: a byte that Write reported as
      written is missing from r.conn, and the CloseWrite that had finished before is undone. */
  lemma FailedReplayIsNotTransparent() returns (s: State)
    ensures Reachable(s) && s.mutex == Free && s.reader.RIdle? && s.writer.WIdle? && s.writeCloser.CIdle?
    ensures s.ledger.accepted == [1] && s.net.Cur().sent == []
    ensures WriteHalf in s.closeFlags && !s.net.Cur().Shut(WriteHalf)
  {
    s := AfterOneWrite();
    s := AfterCloseWrite(s);
    s := AfterFailedRead(s);
    s := AfterFailedReplay(s);
  }

  /** Nor is a write deadline copied that was set before the replay failed. */
  lemma FailedReplayDropsDeadline() returns (s: State)
    ensures Reachable(s) && s.mutex == Free && s.reader.RIdle?
    ensures s.writeDeadline == Some(5) && s.net.Cur().writeDeadline == None
  {
    s := AfterOneWrite();
    s := Advance(s, SetWriteDeadline(Some(5)));
    s := AfterFailedRead(s);
    s := AfterFailedReplay(s);
  }

  /** ReadFrom copies a one-byte chunk to the provisional socket. */
  lemma AfterOneCopy() returns (s: State)
    ensures Reachable(s) && s.writer.CCheck? && !s.complete
    ensures s.copy == Some(Copy(1, 0, 0)) && s.ledger.accepted == [1]
  {
    InitialReachable(0);
    s := Advance(Initial(0), W(ReadFromCall));
    s := Advance(s, W(CopyCheck));
    s := Advance(s, W(CopyPull([1], false)));
    s := AboutToWrite(s);
    s := WritesOneByte(s);
    s := Advance(s, W(WriterUnlock));
  }

  /** ReadFrom can move bytes and return a count of zero. */
  lemma ReadFromUndercounts() returns (s: State)
    ensures Reachable(s) && s.writer.WIdle?
    ensures s.copied.Some? && s.copied.value.count == 0 && s.ledger.accepted == [1]
  {
    s := AfterOneCopy();
    s := Advance(s, W(CopyCheck));
    s := Advance(s, W(CopyPull([], true)));
  }

  /** A read deadline set before the first reply is stored, but is not in force after it. */
  lemma ReadDeadlineIsForgotten() returns (s: State)
    ensures Reachable(s) && s.mutex == Free && s.complete && s.log.retries == 0
    ensures s.readDeadline == Some(5) && s.net.Cur().readDeadline == None
  {
    s := AfterOneWrite();
    s := Advance(s, SetReadDeadline(Some(5)));
    s := Advance(s, R(ReadCall));
    s := Advance(s, R(SocketRead([7], false)));
    s := Advance(s, R(CheckFlag));
    s := Advance(s, R(Lock));
    s := Advance(s, R(Decide(None)));
    s := AfterPublication(s);
  }
}
