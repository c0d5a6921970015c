/** What the split-retry connection promises, over every run of the machine in RetryProtocol: any
    number of calls, any interleaving, any behaviour of the network. */
module RetryTheorems {
  import opened Common
  import opened RetryProtocol
  import opened RetryInvariant

  // Runs

  lemma ReaderStepKeepsInv(s: State, e: ReaderEvent)
    requires Inv(s) && ReaderEnabled(s, e)
    ensures Inv(ReaderStep(s, e))
  {
    match e
    case ReadCall => ReadCallKeeps(s);
    case SocketRead(data, err) => SocketReturnsKeeps(s, data, err);
    case CheckFlag => FlagCheckedKeeps(s);
    case Lock => ReaderLocksKeeps(s);
    case Decide(timedOut) => DecidesKeeps(s, timedOut);
    case DialFailed => DialFailsKeeps(s);
    case DialOk(r) => DialsKeeps(s, r);
    case ReplayFirst(n, err) => ReplaysFirstKeeps(s, n, err);
    case ReplaySecond(n, err) => ReplaysSecondKeeps(s, n, err);
    case CopyReadClose => CopiesReadCloseKeeps(s);
    case CopyWriteClose => CopiesWriteCloseKeeps(s);
    case CopyDeadlines => CopiesDeadlinesKeeps(s);
    case Reread(data, err) => RereadsKeeps(s, data, err);
    case Publish => PublishesKeeps(s);
    case Cleanup => CleansUpKeeps(s);
    case Unlock => ReaderUnlocksKeeps(s);
  }

  lemma WriterStepKeepsInv(s: State, e: WriterEvent)
    requires Inv(s) && WriterEnabled(s, e)
    ensures Inv(WriterStep(s, e))
  {
    match e
    case WriteCall(b) => WriteBeginsKeeps(s, b);
    case WriterCheck => WriterChecksKeeps(s);
    case WriterLock => WriterLocksKeeps(s);
    case WriterBody(n, err, now) => WritesProvisionallyKeeps(s, n, err, now);
    case WriterUnlock => WriterUnlocksKeeps(s);
    case WriterWake => WriterWakesKeeps(s);
    case WriterRelock => WriterRelocksKeeps(s);
    case WriterReunlock => WriterReunlocksKeeps(s);
    case WriterTail(m, err) => WritesTailKeeps(s, m, err);
    case WriterDirect(n, err) => WritesDirectlyKeeps(s, n, err);
    case ReadFromCall => CopyBeginsKeeps(s);
    case CopyCheck => CopyChecksKeeps(s);
    case CopyPull(chunk, err) => CopyPullsKeeps(s, chunk, err);
    case TailPull(chunk, end) => TailPullsKeeps(s, chunk, end);
    case TailWrite(n, err) => TailWritesKeeps(s, n, err);
  }

  lemma StepKeepsInv(s: State, e: Event)
    requires Inv(s) && Enabled(s, e)
    ensures Inv(Step(s, e))
  {
    match e
    case R(r) => ReaderStepKeepsInv(s, r);
    case W(w) => WriterStepKeepsInv(s, w);
    case C(h, CloseCall) => CloseBeginsKeeps(s, h);
    case C(h, CloserLock) => CloserLocksKeeps(s, h);
    case C(h, CloserShut) => ShutsKeeps(s, h);
    case C(h, CloserUnlock) => CloserUnlocksKeeps(s, h);
    case SetReadDeadline(t) => SetsReadDeadlineKeeps(s, t);
    case SetWriteDeadline(t) => SetsWriteDeadlineKeeps(s, t);
  }

  lemma {:induction false} RunKeepsInv(s: State, es: seq<Event>)
    requires Inv(s) && Executable(s, es)
    ensures Inv(Exec(s, es))
    decreases |es|
  {
    if es != [] {
      StepKeepsInv(s, es[0]);
      RunKeepsInv(Step(s, es[0]), es[1..]);
    }
  }

  /** Some run of a fresh connection ends in `s`. */
  ghost predicate Reachable(s: State) {
    exists timeout: int, es: seq<Event> :: Executable(Initial(timeout), es) && Exec(Initial(timeout), es) == s
  }

  lemma ReachableInv(s: State)
    requires Reachable(s)
    ensures Inv(s)
  {
    var timeout: int, es: seq<Event> :| Executable(Initial(timeout), es) && Exec(Initial(timeout), es) == s;
    InitialInv(timeout);
    RunKeepsInv(Initial(timeout), es);
  }

  lemma {:induction false} ExecExtends(s: State, es: seq<Event>, e: Event)
    requires Executable(s, es) && Enabled(Exec(s, es), e)
    ensures Executable(s, es + [e]) && Exec(s, es + [e]) == Step(Exec(s, es), e)
    decreases |es|
  {
    if es == [] {
      assert Executable(Step(s, e), []);
      assert [e][1..] == [];
    } else {
      assert (es + [e])[1..] == es[1..] + [e];
      ExecExtends(Step(s, es[0]), es[1..], e);
    }
  }

  lemma ExecPrepends(s: State, e: Event, t: State, es: seq<Event>)
    requires Enabled(s, e) && t == Step(s, e) && Executable(t, es)
    ensures Executable(s, [e] + es) && Exec(s, [e] + es) == Exec(t, es)
  {
    assert ([e] + es)[1..] == es;
  }

  lemma InitialReachable(timeout: int)
    ensures Reachable(Initial(timeout))
  {
    assert Executable(Initial(timeout), []) && Exec(Initial(timeout), []) == Initial(timeout);
  }

  lemma StepReachable(s: State, e: Event)
    requires Reachable(s) && Enabled(s, e)
    ensures Reachable(Step(s, e))
  {
    var timeout: int, es: seq<Event> :| Executable(Initial(timeout), es) && Exec(Initial(timeout), es) == s;
    ExecExtends(Initial(timeout), es, e);
  }

  // Upstream: no byte lost, duplicated or reordered

  /** Everything buffered was on r.conn when the flag closed. */
  predicate ReplayedWhole(s: State) {
    s.complete ==> |s.log.sentAtPublish| == |s.log.helloAtPublish|
  }

  /** Whenever no retry is running, r.conn has been sent exactly the accepted bytes and the logged
      part of the Write in progress -- if and only if the replay was whole, which it is unless a
      write of the replay failed.  Otherwise what is missing is a stretch after a prefix of `hello`. */
  lemma ExactlyOnce(s: State)
    requires Reachable(s) && s.mutex != Reader
    ensures s.net.Cur().sent == s.ledger.accepted + InFlight(s.writer) <==> ReplayedWhole(s)
    ensures !s.log.truncated ==> ReplayedWhole(s)
    ensures s.complete ==>
              && s.log.sentAtPublish <= s.log.helloAtPublish <= s.ledger.accepted + InFlight(s.writer)
              && s.net.Cur().sent ==
                 s.log.sentAtPublish + (s.ledger.accepted + InFlight(s.writer))[|s.log.helloAtPublish|..]
  {
    ReachableInv(s);
    if s.complete {
      var l := Logged(s);
      assert l == s.log.helloAtPublish + l[|s.log.helloAtPublish|..];
    }
  }

  /** Once the writer is idle, r.conn has been sent exactly what was passed to Write and pulled by
      ReadFrom, unless a call reported bytes as not written (or the replay was cut short). */
  lemma NothingLost(s: State)
    requires Reachable(s) && s.mutex != Reader && s.writer.WIdle? && !s.log.truncated
    ensures s.net.Cur().sent == s.ledger.offered <==> s.ledger.shortfall == 0
  {
    ReachableInv(s);
    ExactlyOnce(s);
  }

  /** `hello` holds exactly the bytes written before the first read, and is empty afterwards. */
  lemma HelloIsWhatWasWritten(s: State)
    requires Reachable(s) && s.mutex != Reader
    ensures s.hello == (if s.complete then [] else s.ledger.accepted + InFlight(s.writer))
    ensures s.stats.bytes == (if s.complete then |s.log.helloAtPublish| else |s.hello|)
  {
    ReachableInv(s);
  }

  // Downstream: one source

  /** The retry runs at most once and the flag closes at most once.  What Read has returned is
      exactly what was read from r.conn: nothing comes from an abandoned socket, and nothing read
      from r.conn is withheld -- save data that came together with the error of the first read when
      the redial failed as well. */
  lemma SingleSource(s: State)
    requires Reachable(s)
    ensures s.log.retries <= 1 && s.log.publications <= 1
    ensures s.reader.RIdle? && s.complete ==>
              s.net.Cur().received == (if s.net.redialed.Some? then [] else s.log.discarded) + s.log.delivered
    ensures s.reader.RIdle? && s.complete ==>
              (s.net.Cur().received == s.log.delivered <==> s.net.redialed.Some? || s.log.discarded == [])
    ensures !s.complete ==> s.log.delivered == []
  {
    ReachableInv(s);
    if s.reader.RIdle? && s.complete && s.net.redialed.None? && s.log.discarded != [] {
      assert |s.net.Cur().received| > |s.log.delivered|;
    }
  }

  /** `d` is `c` later on: bytes are only added, and nothing that is shut opens again. */
  predicate Continues(c: Conn, d: Conn) {
    && c.sent <= d.sent && c.received <= d.received
    && c.shut <= d.shut && (c.closed ==> d.closed)
  }

  /** The same r.conn, with what it has done so far; an abandoned socket is left alone. */
  predicate SameSocket(n: Net, m: Net) {
    && m.redialed.Some? == n.redialed.Some?
    && (n.redialed.Some? ==> m.provisional == n.provisional)
    && Continues(n.Cur(), m.Cur())
  }

  lemma ReaderKeepsSocket(s: State, e: ReaderEvent)
    requires InvPhase(s) && s.complete && ReaderEnabled(s, e)
    ensures ReaderStep(s, e).complete && SameSocket(s.net, ReaderStep(s, e).net)
  {
    assert e.ReadCall? || e.SocketRead? || e.CheckFlag? || e.Cleanup? || e.Unlock?;
  }

  lemma WriterKeepsSocket(s: State, e: WriterEvent)
    requires s.complete && WriterEnabled(s, e)
    ensures WriterStep(s, e).complete && SameSocket(s.net, WriterStep(s, e).net)
  {
  }

  lemma CloserKeepsSocket(s: State, h: Half, e: CloserEvent)
    requires s.complete && CloserEnabled(s, h, e)
    ensures CloserStep(s, h, e).complete && SameSocket(s.net, CloserStep(s, h, e).net)
  {
  }

  /** After the flag has closed, r.conn never changes again: what it has been sent, what was read from it
      and what is shut on it stay, whoever makes a step. */
  lemma SwitchIsFinal(s: State, e: Event)
    requires Reachable(s) && Enabled(s, e) && s.complete
    ensures Step(s, e).complete && SameSocket(s.net, Step(s, e).net)
  {
    ReachableInv(s);
    match e
    case R(r) => ReaderKeepsSocket(s, r);
    case W(w) => WriterKeepsSocket(s, w);
    case C(h, c) => CloserKeepsSocket(s, h, c);
    case _ =>
  }

  // Half-close

  /** Once the close call and any retry have finished, the half is shut on r.conn -- if and only if
      the replay did not fail or some close call of that half came after the redial. */
  lemma HalfCloseSurvives(s: State, h: Half)
    requires Reachable(s) && h in s.closeFlags && s.CloserAt(h).CIdle? && s.mutex != Reader
    ensures s.net.Cur().Shut(h) <==> !s.log.truncated || h in s.log.lateShut
  {
    ReachableInv(s);
    assert InvHalf(s, h);
  }

  /** A half that nobody asked to close stays open on r.conn. */
  lemma OpenHalfStaysOpen(s: State, h: Half)
    requires Reachable(s) && h !in s.closeFlags
    ensures h !in s.net.Cur().shut
  {
    ReachableInv(s);
    assert InvHalf(s, h);
  }

  // Deadlines

  /** Outside the retry the caller's write deadline is in force -- if and only if the replay did not
      fail, or it was set after the redial, or there is none. */
  lemma WriteDeadlineSurvives(s: State)
    requires Reachable(s) && s.mutex != Reader
    ensures s.net.Cur().writeDeadline == s.writeDeadline <==>
            !s.log.truncated || s.log.lateDeadline || s.writeDeadline == None
  {
    ReachableInv(s);
  }

  /** The read deadline in force after the switch is the one set since :167 cleared it, if any.  So the
      caller's is in force if and only if it was set since then, or there is none. */
  lemma ReadDeadlineAfterSwitch(s: State)
    requires Reachable(s) && s.mutex != Reader && s.complete
    ensures s.net.Cur().readDeadline == s.log.deadlineSince
    ensures s.net.Cur().readDeadline == s.readDeadline <==> s.log.deadlineSince.Some? || s.readDeadline == None
  {
    ReachableInv(s);
  }

  // Progress

  /** A parked writer does not hold the mutex.  While the flag is open the provisional socket, which
      the reader must be waiting on, has a read deadline that no caller can take away. */
  lemma ParkedWriterIsWatched(s: State, t: Deadline)
    requires Reachable(s) && s.writer.WParked?
    ensures s.mutex != Writer
    ensures !s.complete ==>
              && s.net.provisional.readDeadline.Some?
              && SetsReadDeadline(s, t).net == s.net
              && (s.mutex != Reader ==> s.net.redialed.None? && !s.net.provisional.closed)
  {
    ReachableInv(s);
  }

  /** Steps that the Read in progress still has to make before it has published a socket and given
      the mutex back, once its first socket read has returned. */
  function ReaderRank(complete: bool, pc: ReaderPc): nat {
    match pc
    case RIdle => 0
    case RSocket => 0
    case RGot(_, _) => if complete then 0 else 13
    case RWantLock(_, _) => if complete then 0 else 12
    case RLocked(_, _) => if complete then 0 else 11
    case RDial => if complete then 0 else 10
    case RReplayFirst(_, _) => if complete then 0 else 9
    case RReplaySecond(_) => if complete then 0 else 8
    case RCopyRead => if complete then 0 else 7
    case RCopyWrite => if complete then 0 else 6
    case RDeadlines => if complete then 0 else 5
    case RReread => if complete then 0 else 4
    case RPublish(_, _) => if complete then 0 else 3
    case RCleanup(_, _) => 2
    case RUnlock(_, _) => 1
  }

  function WriterRank(pc: WriterPc): nat {
    match pc
    case WParked(_, _) => 3
    case WRelock(_, _) => 2
    case WReunlock(_, _) => 1
    case _ => 0
  }

  function CloserRank(pc: CloserPc): nat {
    match pc
    case CLocked => 2
    case CDone => 1
    case _ => 0
  }

  /** What lies between now and the moment a parked writer writes its tail. */
  function Rank(s: State): nat {
    ReaderRank(s.complete, s.reader) + WriterRank(s.writer)
  }

  /** What lies between now and the moment the close calls give the mutex back. */
  function HolderRank(s: State): nat {
    CloserRank(s.readCloser) + CloserRank(s.writeCloser)
  }

  predicate Resuming(pc: WriterPc) {
    pc.WParked? || pc.WRelock? || pc.WReunlock?
  }

  /** The writer is waiting for a socket, and the socket read that will bring it one has returned. */
  predicate Waiting(s: State) {
    Resuming(s.writer) && (s.complete || ReaderRank(false, s.reader) > 0)
  }

  /** A step of the Read that publishes the socket, of the waiting writer, or of a close call that
      holds the mutex. */
  predicate Helpful(s: State, e: Event) {
    match e
    case R(_) => ReaderRank(s.complete, s.reader) > 0
    case W(_) => true
    case C(_, c) => c.CloserShut? || c.CloserUnlock?
    case _ => false
  }

  /** Whoever must move next, with the network and the dialer returning an error at once. */
  function NextHelpful(s: State): Event {
    match s.mutex
    case Closer(h) => C(h, if s.CloserAt(h).CLocked? then CloserShut else CloserUnlock)
    case Writer => W(WriterReunlock)
    case _ =>
      if s.complete && s.writer.WParked? then W(WriterWake)
      else if s.mutex == Free && s.complete && s.writer.WRelock? then W(WriterRelock)
      else
        match s.reader
        case RGot(_, _) => R(CheckFlag)
        case RWantLock(_, _) => R(Lock)
        case RLocked(_, _) => R(Decide(None))
        case RDial => R(DialFailed)
        case RReplayFirst(_, _) => R(ReplayFirst(0, true))
        case RReplaySecond(_) => R(ReplaySecond(0, true))
        case RCopyRead => R(CopyReadClose)
        case RCopyWrite => R(CopyWriteClose)
        case RDeadlines => R(CopyDeadlines)
        case RReread => R(Reread([], true))
        case RPublish(_, _) => R(Publish)
        case RCleanup(_, _) => R(Cleanup)
        case _ => R(Unlock)
  }

  /** While a writer waits, somebody can make a helpful step: the protocol does not deadlock. */
  lemma NeverStuck(s: State)
    requires Inv(s) && Waiting(s)
    ensures Helpful(s, NextHelpful(s)) && Enabled(s, NextHelpful(s))
  {
  }

  /** What a step may do to the ranks of a state in which a writer waits. */
  predicate Nearer(s: State, t: State, helpful: bool) {
    && (Waiting(t) || t.writer.WTail?)
    && Rank(t) <= Rank(s)
    && (helpful ==> Rank(t) < Rank(s) || (Rank(t) == Rank(s) && HolderRank(t) < HolderRank(s)))
  }

  /** What the reader does to the ranks: its own falls by the step, and the rest stays. */
  lemma ReaderRankFalls(s: State, e: ReaderEvent)
    requires InvPhase(s) && ReaderEnabled(s, e) && (s.complete || ReaderRank(false, s.reader) > 0)
    ensures
      var t := ReaderStep(s, e);
      && ReaderRank(t.complete, t.reader) <= ReaderRank(s.complete, s.reader)
      && (Helpful(s, R(e)) ==> ReaderRank(t.complete, t.reader) < ReaderRank(s.complete, s.reader))
      && (t.complete || ReaderRank(false, t.reader) > 0)
  {
    if s.complete {
      assert e.ReadCall? || e.SocketRead? || e.CheckFlag? || e.Cleanup? || e.Unlock?;
    } else {
      assert !e.ReadCall? && !e.SocketRead? && !e.Cleanup? && !e.Unlock?;
    }
  }

  lemma ReaderLeavesOthers(s: State, e: ReaderEvent)
    requires ReaderEnabled(s, e)
    ensures
      var t := ReaderStep(s, e);
      t.writer == s.writer && t.readCloser == s.readCloser && t.writeCloser == s.writeCloser
  {
  }

  lemma ReaderShortensWait(s: State, e: ReaderEvent)
    requires InvPhase(s) && Waiting(s) && ReaderEnabled(s, e)
    ensures Nearer(s, ReaderStep(s, e), Helpful(s, R(e)))
  {
    ReaderRankFalls(s, e);
    ReaderLeavesOthers(s, e);
  }

  lemma WriterShortensWait(s: State, e: WriterEvent)
    requires InvPhase(s) && Waiting(s) && WriterEnabled(s, e)
    ensures Nearer(s, WriterStep(s, e), true)
  {
    assert e.WriterWake? || e.WriterRelock? || e.WriterReunlock?;
  }

  lemma OthersShortenWait(s: State, e: Event)
    requires InvLocks(s) && Waiting(s) && !e.R? && !e.W? && Enabled(s, e)
    ensures Nearer(s, Step(s, e), Helpful(s, e))
  {
    match e
    case C(ReadHalf, _) =>
    case C(WriteHalf, _) =>
    case _ =>
  }

  /** Every helpful step brings the release of a waiting writer closer, whatever the network does,
      and no other step moves it away. */
  lemma WaitingGetsShorter(s: State, e: Event)
    requires Inv(s) && Waiting(s) && Enabled(s, e)
    ensures Nearer(s, Step(s, e), Helpful(s, e))
  {
    match e
    case R(r) => ReaderShortensWait(s, r);
    case W(w) => WriterShortensWait(s, w);
    case _ => OthersShortenWait(s, e);
  }

  lemma OneStepNearer(s: State) returns (t: State)
    requires Inv(s) && Waiting(s)
    ensures Enabled(s, NextHelpful(s)) && t == Step(s, NextHelpful(s)) && Inv(t) && Nearer(s, t, true)
    ensures t.writer.WTail? ==> t.complete
  {
    NeverStuck(s);
    WaitingGetsShorter(s, NextHelpful(s));
    StepKeepsInv(s, NextHelpful(s));
    t := Step(s, NextHelpful(s));
  }

  /** So a waiting writer is released by a run of helpful steps. */
  lemma {:induction false} WriterIsReleased(s: State) returns (es: seq<Event>)
    requires Inv(s) && Waiting(s)
    ensures Executable(s, es) && Exec(s, es).writer.WTail? && Exec(s, es).complete
    decreases Rank(s), HolderRank(s)
  {
    var e := NextHelpful(s);
    var t := OneStepNearer(s);
    var rest := [];
    if t.writer.WTail? {
      assert Exec(t, rest) == t;
    } else {
      rest := WriterIsReleased(t);
    }
    es := [e] + rest;
    ExecPrepends(s, e, t, rest);
  }

  // ReadFrom

  lemma ReadFromReturns(s: State, e: WriterEvent)
    requires Tallied(s.copy, |s.ledger.accepted|) && WriterEnabled(s, e)
    requires s.copy.Some? && WriterStep(s, e).copy.None?
    ensures
      var t := WriterStep(s, e);
      && t.copied.Some?
      && t.copied.value.count + t.copied.value.earlier == |t.ledger.accepted| - s.copy.value.from
  {
    assert e.WriterUnlock? || e.WriterTail? || e.WriterDirect? || e.CopyPull? || e.TailWrite?;
  }

  /** When a ReadFrom call returns, its count is at most the number of bytes it has moved, and falls
      short of it by exactly what the assignment at :291 has overwritten. */
  lemma ReadFromCount(s: State, e: WriterEvent)
    requires Reachable(s) && WriterEnabled(s, e) && s.copy.Some? && WriterStep(s, e).copy.None?
    ensures
      var t := WriterStep(s, e);
      var moved := |t.ledger.accepted| - s.copy.value.from;
      && t.copied.Some?
      && t.copied.value.count == moved - t.copied.value.earlier <= moved
  {
    ReachableInv(s);
    ReadFromReturns(s, e);
  }
}
