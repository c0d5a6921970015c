/** What a caller is told: which reads lead to a retry, what Read and Write return, and how long the
    provisional socket may stay silent.  Each is said of what the network and the clock have answered. */
module RetryTrail {
  import opened Common
  import opened RetryProtocol
  import opened RetryInvariant
  import opened RetryTheorems

  // Read

  /** The Read in progress has something to return. */
  predicate HoldsAnswer(pc: ReaderPc) {
    pc.RGot? || pc.RWantLock? || pc.RLocked? || pc.RPublish? || pc.RCleanup? || pc.RUnlock?
  }

  /** What Read returns, or is about to, is the network's last answer to it. */
  predicate Answers(reader: ReaderPc, heard: (seq<byte>, bool), result: (seq<byte>, bool)) {
    && (HoldsAnswer(reader) ==> heard == (reader.data, reader.err))
    && (reader.RIdle? ==> result == heard)
  }

  /** A read that tells nothing leaves everything open. */
  predicate Nothing(r: Option<(seq<byte>, bool)>) {
    r.None? || r == Some(([], false))
  }

  /** How far the read that decides about the retry has got. */
  predicate Deciding(complete: bool, reader: ReaderPc, retries: nat, openRead: Option<(seq<byte>, bool)>) {
    && (!complete && (reader.RIdle? || reader.RSocket?) ==> Nothing(openRead))
    && (!complete && (reader.RGot? || reader.RWantLock? || reader.RLocked?) ==>
          openRead == Some((reader.data, reader.err)) && !Nothing(openRead))
    && (retries > 0 ==> openRead.Some? && openRead.value.1)
    && (retries == 0 && (complete || reader.RPublish?) ==> !Nothing(openRead) && !openRead.value.1)
  }

  /** What became of the retry. */
  predicate Redialed(reader: ReaderPc, retries: nat, redialed: bool, dialed: Option<bool>) {
    && (redialed <==> dialed == Some(true))
    && (retries == 0 ==> dialed == None)
    && (retries > 0 && !reader.RDial? ==> dialed.Some?)
  }

  predicate ReadTrail(s: State) {
    && Answers(s.reader, s.trail.heard, s.trail.result)
    && Deciding(s.complete, s.reader, s.log.retries, s.trail.openRead)
    && Redialed(s.reader, s.log.retries, s.net.redialed.Some?, s.trail.dialed)
    && (s.stats.timedOut <==> s.log.retries > 0 && s.trail.cause == Some(true))
    && (s.reader.RReread? ==> s.net.Cur().readDeadline == s.readDeadline)
  }

  // Write and ReadFrom

  /** A socket write of the Write in progress has been made, and is not reported yet. */
  predicate MidWrite(pc: WriterPc) {
    pc.WParked? || pc.WRelock? || pc.WReunlock? || pc.WTail? || (pc.WUnlock? && pc.attempted)
  }

  /** Write reports an error just if its last socket write failed, which a provisional one never is; and
      it reports a short count only with an error. */
  predicate WriteReported(complete: bool, writer: WriterPc, writeFailed: bool, written: Option<(nat, nat, bool)>) {
    && (written.Some? ==>
          var (size, n, err) := written.value;
          n <= size && (n < size ==> err) && (err ==> complete) && (!MidWrite(writer) ==> err == writeFailed))
    && (writer.WUnlock? && writer.attempted ==> writer.err == writeFailed)
  }

  /** The provisional socket waits for the timeout from the last write on, and for ever before the first. */
  predicate Waits(complete: bool, timeout: int, onProvisional: Deadline, chunks: nat, attempts: nat,
                  writtenAt: Option<int>) {
    && chunks == attempts
    && (attempts > 0 <==> writtenAt.Some?)
    && (!complete ==> onProvisional == if writtenAt.Some? then Some(writtenAt.value + timeout) else None)
  }

  predicate WriteTrail(s: State) {
    && WriteReported(s.complete, s.writer, s.trail.writeFailed, s.trail.written)
    && Waits(s.complete, s.timeout, s.net.provisional.readDeadline, s.stats.chunks, s.trail.attempts, s.trail.writtenAt)
    && (s.copy.Some? ==> s.ledger.shortfall == s.trail.shortBefore)
  }

  // Steps

  predicate InvTrail(s: State) {
    ReadTrail(s) && WriteTrail(s)
  }

  lemma SocketReturnsTrail(s: State, data: seq<byte>, err: bool)
    requires InvPhase(s) && InvTrail(s) && s.reader.RSocket?
    ensures InvTrail(SocketReturns(s, data, err))
  {
  }

  lemma FlagCheckedTrail(s: State)
    requires InvPhase(s) && InvTrail(s) && s.reader.RGot?
    ensures InvTrail(FlagChecked(s))
  {
  }

  lemma ReaderLocksTrail(s: State)
    requires InvPhase(s) && InvTrail(s) && s.reader.RWantLock? && s.mutex == Free
    ensures InvTrail(ReaderLocks(s))
  {
  }

  lemma DecidesTrail(s: State, timedOut: Option<bool>)
    requires InvPhase(s) && InvTrail(s) && s.reader.RLocked?
    ensures InvTrail(Decides(s, timedOut))
  {
  }

  lemma DialFailsTrail(s: State)
    requires InvPhase(s) && InvTrail(s) && s.reader.RDial?
    ensures InvTrail(DialFails(s))
  {
  }

  lemma DialsTrail(s: State, r: nat)
    requires InvPhase(s) && InvTrail(s) && s.reader.RDial? && ReaderEnabled(s, DialOk(r))
    ensures InvTrail(Dials(s, r))
  {
  }

  lemma ReplaysFirstTrail(s: State, n: nat, err: bool)
    requires InvPhase(s) && InvTrail(s) && s.reader.RReplayFirst? && WriteContract(s.reader.first, n, err)
    ensures InvTrail(Replays(s, s.reader.first, n, err, RReplaySecond(s.reader.second)))
  {
  }

  lemma ReplaysSecondTrail(s: State, n: nat, err: bool)
    requires InvPhase(s) && InvTrail(s) && s.reader.RReplaySecond? && WriteContract(s.reader.second, n, err)
    ensures InvTrail(Replays(s, s.reader.second, n, err, RCopyRead))
  {
  }

  lemma CopiesReadCloseTrail(s: State)
    requires InvPhase(s) && InvTrail(s) && s.reader.RCopyRead?
    ensures InvTrail(CopiesClose(s, ReadHalf, RCopyWrite))
  {
  }

  lemma CopiesWriteCloseTrail(s: State)
    requires InvPhase(s) && InvTrail(s) && s.reader.RCopyWrite?
    ensures InvTrail(CopiesClose(s, WriteHalf, RDeadlines))
  {
  }

  lemma CopiesDeadlinesTrail(s: State)
    requires InvPhase(s) && InvTrail(s) && s.reader.RDeadlines?
    ensures InvTrail(CopiesDeadlines(s))
  {
  }

  lemma RereadsTrail(s: State, data: seq<byte>, err: bool)
    requires InvPhase(s) && InvTrail(s) && s.reader.RReread?
    ensures InvTrail(Rereads(s, data, err))
  {
  }

  lemma PublishesTrail(s: State)
    requires InvPhase(s) && InvTrail(s) && s.reader.RPublish?
    ensures InvTrail(Publishes(s))
  {
  }

  lemma CleansUpTrail(s: State)
    requires InvPhase(s) && InvTrail(s) && s.reader.RCleanup?
    ensures InvTrail(CleansUp(s))
  {
  }

  lemma ReaderUnlocksTrail(s: State)
    requires InvPhase(s) && InvTrail(s) && s.reader.RUnlock?
    ensures InvTrail(ReaderUnlocks(s))
  {
  }

  lemma ReaderKeepsTrail(s: State, e: ReaderEvent)
    requires InvPhase(s) && InvTrail(s) && ReaderEnabled(s, e)
    ensures InvTrail(ReaderStep(s, e))
  {
    match e
    case ReadCall =>
    case SocketRead(data, err) => SocketReturnsTrail(s, data, err);
    case CheckFlag => FlagCheckedTrail(s);
    case Lock => ReaderLocksTrail(s);
    case Decide(timedOut) => DecidesTrail(s, timedOut);
    case DialFailed => DialFailsTrail(s);
    case DialOk(r) => DialsTrail(s, r);
    case ReplayFirst(n, err) => ReplaysFirstTrail(s, n, err);
    case ReplaySecond(n, err) => ReplaysSecondTrail(s, n, err);
    case CopyReadClose => CopiesReadCloseTrail(s);
    case CopyWriteClose => CopiesWriteCloseTrail(s);
    case CopyDeadlines => CopiesDeadlinesTrail(s);
    case Reread(data, err) => RereadsTrail(s, data, err);
    case Publish => PublishesTrail(s);
    case Cleanup => CleansUpTrail(s);
    case Unlock => ReaderUnlocksTrail(s);
  }

  lemma WriterLeavesReader(s: State, e: WriterEvent)
    requires WriterEnabled(s, e)
    ensures
      var t := WriterStep(s, e);
      && t.reader == s.reader && t.complete == s.complete && t.log == s.log && t.readDeadline == s.readDeadline
      && t.net.redialed.Some? == s.net.redialed.Some? && t.stats.timedOut == s.stats.timedOut
      && t.trail.heard == s.trail.heard && t.trail.result == s.trail.result && t.trail.openRead == s.trail.openRead
      && t.trail.dialed == s.trail.dialed && t.trail.cause == s.trail.cause
      && (!s.writer.WLocked? ==> t.net.Cur().readDeadline == s.net.Cur().readDeadline)
  {
  }

  lemma WriterKeepsReadTrail(s: State, e: WriterEvent)
    requires InvLocks(s) && InvPhase(s) && ReadTrail(s) && WriterEnabled(s, e)
    ensures ReadTrail(WriterStep(s, e))
  {
    WriterLeavesReader(s, e);
  }

  lemma WritesProvisionallyTrail(s: State, n: nat, err: bool, now: int)
    requires InvLocks(s) && InvPhase(s) && WriteTrail(s)
    requires s.writer.WLocked? && WriteContract(s.writer.b, n, err)
    ensures WriteTrail(WritesProvisionally(s, n, err, now))
  {
  }

  lemma WriterUnlocksTrail(s: State)
    requires InvLocks(s) && InvPhase(s) && WriteTrail(s)
    requires s.writer.WUnlock? && s.writer.n <= |s.writer.b|
    ensures WriteTrail(WriterUnlocks(s))
  {
  }

  lemma WritesTailTrail(s: State, m: nat, err: bool)
    requires InvLocks(s) && InvPhase(s) && WriteTrail(s)
    requires s.writer.WTail? && s.writer.n <= |s.writer.b| && WriteContract(s.writer.b[s.writer.n..], m, err)
    ensures WriteTrail(WritesTail(s, m, err))
  {
  }

  lemma WritesDirectlyTrail(s: State, n: nat, err: bool)
    requires InvLocks(s) && InvPhase(s) && WriteTrail(s)
    requires s.writer.WDirect? && WriteContract(s.writer.b, n, err)
    ensures WriteTrail(WritesDirectly(s, n, err))
  {
  }

  lemma CopyPullsTrail(s: State, chunk: seq<byte>, err: bool)
    requires InvLocks(s) && InvPhase(s) && WriteTrail(s)
    requires s.writer.CPull? && s.copy.Some?
    ensures WriteTrail(CopyPulls(s, chunk, err))
  {
  }

  lemma TailWritesTrail(s: State, n: nat, err: bool)
    requires InvLocks(s) && InvPhase(s) && WriteTrail(s)
    requires s.writer.CTailWrite? && s.copy.Some? && WriteContract(s.writer.b, n, err)
    ensures WriteTrail(TailWrites(s, n, err))
  {
  }

  lemma WriterKeepsWriteTrail(s: State, e: WriterEvent)
    requires InvLocks(s) && InvPhase(s) && WriteTrail(s) && WriterEnabled(s, e)
    ensures WriteTrail(WriterStep(s, e))
  {
    match e
    case WriterBody(n, err, now) => WritesProvisionallyTrail(s, n, err, now);
    case WriterUnlock => WriterUnlocksTrail(s);
    case WriterTail(m, err) => WritesTailTrail(s, m, err);
    case WriterDirect(n, err) => WritesDirectlyTrail(s, n, err);
    case CopyPull(chunk, err) => CopyPullsTrail(s, chunk, err);
    case TailWrite(n, err) => TailWritesTrail(s, n, err);
    case _ =>
  }

  lemma CloserKeepsTrail(s: State, h: Half, e: CloserEvent)
    requires InvLocks(s) && InvPhase(s) && InvTrail(s) && CloserEnabled(s, h, e)
    ensures InvTrail(CloserStep(s, h, e))
  {
  }

  lemma DeadlineCallsKeepTrail(s: State, t: Deadline)
    requires InvLocks(s) && InvPhase(s) && InvTrail(s) && s.mutex == Free
    ensures InvTrail(SetsReadDeadline(s, t)) && InvTrail(SetsWriteDeadline(s, t))
  {
  }

  lemma StepKeepsTrail(s: State, e: Event)
    requires Inv(s) && InvTrail(s) && Enabled(s, e)
    ensures InvTrail(Step(s, e))
  {
    match e
    case R(r) => ReaderKeepsTrail(s, r);
    case W(w) =>
      WriterKeepsReadTrail(s, w);
      WriterKeepsWriteTrail(s, w);
    case C(h, c) => CloserKeepsTrail(s, h, c);
    case SetReadDeadline(t) => DeadlineCallsKeepTrail(s, t);
    case SetWriteDeadline(t) => DeadlineCallsKeepTrail(s, t);
  }

  lemma {:induction false} RunKeepsTrail(s: State, es: seq<Event>)
    requires Inv(s) && InvTrail(s) && Executable(s, es)
    ensures InvTrail(Exec(s, es))
    decreases |es|
  {
    if es != [] {
      StepKeepsInv(s, es[0]);
      StepKeepsTrail(s, es[0]);
      RunKeepsTrail(Step(s, es[0]), es[1..]);
    }
  }

  lemma ReachableTrail(s: State)
    requires Reachable(s)
    ensures Inv(s) && InvTrail(s)
  {
    ReachableInv(s);
    var timeout: int, es: seq<Event> :| Executable(Initial(timeout), es) && Exec(Initial(timeout), es) == s;
    InitialInv(timeout);
    RunKeepsTrail(Initial(timeout), es);
  }

  // What follows for every run

  /** The read that closes the flag has returned something, and leads to a retry if and only if it has failed,
      by a timeout or otherwise.  A read that returns nothing at all leaves the flag open.  Then a redial is
      tried, and r.conn is another socket if and only if that has succeeded; and the statistics say whether
      the error was a timeout. */
  lemma RetryJustOnError(s: State)
    requires Reachable(s)
    ensures s.complete ==>
              && s.trail.openRead.Some?
              && var (data, failed) := s.trail.openRead.value;
                 && (data != [] || failed)
                 && (s.log.retries == 1 <==> failed) && (s.net.provisional.closed <==> failed)
                 && (failed <==> s.trail.dialed.Some?)
                 && (s.net.redialed.Some? <==> s.trail.dialed == Some(true))
                 && (s.stats.timedOut <==> failed && s.trail.cause == Some(true))
    ensures !s.complete && s.reader.RIdle? ==> s.trail.openRead == None || s.trail.openRead == Some(([], false))
  {
    ReachableTrail(s);
  }

  /** What Read has returned is the last answer of the network to it: of its socket, or, after a retry, of the new
      socket; a failed redial or replay is an error without data. */
  lemma ReadReturnsLastAnswer(s: State)
    requires Reachable(s) && s.reader.RIdle?
    ensures s.trail.result == s.trail.heard
  {
    ReachableTrail(s);
  }

  /** The caller's deadlines are in force while the retry waits for the first reply of the new socket. */
  lemma DeadlinesDuringReread(s: State)
    requires Reachable(s) && s.reader.RReread?
    ensures s.net.Cur().readDeadline == s.readDeadline && s.net.Cur().writeDeadline == s.writeDeadline
  {
    ReachableTrail(s);
  }

  /** The provisional socket is given the timeout from the last write on to reply, and any time before the
      first; and the statistics count those writes. */
  lemma ReplyIsDueInTime(s: State)
    requires Reachable(s)
    ensures s.stats.chunks == s.trail.attempts && (s.trail.attempts > 0 <==> s.trail.writtenAt.Some?)
    ensures !s.complete ==>
              s.net.provisional.readDeadline ==
              if s.trail.writtenAt.Some? then Some(s.trail.writtenAt.value + s.timeout) else None
  {
    ReachableTrail(s);
  }

  /** A Write reports a short count only with an error, and an error just if its last write to a socket has
      failed, which is not the provisional one: that error is never reported. */
  lemma WriteErrorsAreFinal(s: State)
    requires Reachable(s) && s.trail.written.Some?
    ensures
      var (size, n, err) := s.trail.written.value;
      && n <= size && (n < size ==> err) && (err ==> s.complete)
      && (s.writer.WIdle? ==> err == s.trail.writeFailed)
  {
    ReachableTrail(s);
  }

  /** While a ReadFrom is in progress, it has not lost a byte: so it never goes on after a failed write. */
  lemma ReadFromStopsAtLoss(s: State)
    requires Reachable(s) && s.copy.Some?
    ensures s.ledger.shortfall == s.trail.shortBefore
  {
    ReachableTrail(s);
  }

  /** A ReadFrom ends if and only if a write of it to the final socket, or a pull from its source, has failed, or the
      source has ended. */
  lemma ReadFromEndsJustOnError(s: State, e: WriterEvent)
    requires Reachable(s) && WriterEnabled(s, e) && s.copy.Some?
    ensures WriterStep(s, e).copy.None? <==>
              || (e.WriterTail? && e.err) || (e.WriterDirect? && e.err) || (e.CopyPull? && e.err)
              || (e.TailWrite? && (e.err || s.writer.end))
  {
    ReachableTrail(s);
  }

  // Steady state

  predicate WriterIsFree(pc: WriterPc) {
    pc.WIdle? || pc.WCheck? || pc.WDirect? || pc.CCheck? || pc.CTail? || pc.CTailWrite?
  }

  predicate ReaderIsFree(pc: ReaderPc) {
    pc.RIdle? || pc.RSocket? || pc.RGot?
  }

  /** After the switch, calls of Read, Write and ReadFrom do not take the mutex. */
  lemma NoLockAfterSwitch(s: State, e: Event)
    requires s.complete && Enabled(s, e)
    ensures WriterIsFree(s.writer) ==> WriterIsFree(Step(s, e).writer)
    ensures ReaderIsFree(s.reader) ==> ReaderIsFree(Step(s, e).reader)
  {
  }

  // What can happen

  /** Where the reader is, it can go on with whatever the network, the dialer or the generator decides. */
  ghost predicate ReaderGoesOn(s: State) {
    match s.reader
    case RIdle => Enabled(s, R(ReadCall))
    case RSocket => forall data: seq<byte>, err: bool :: Enabled(s, R(SocketRead(data, err)))
    case RGot(_, _) => Enabled(s, R(CheckFlag))
    case RWantLock(_, _) => Enabled(s, R(Lock)) <==> s.mutex == Free
    case RLocked(_, _) => forall timedOut: Option<bool> :: Enabled(s, R(Decide(timedOut)))
    case RDial => Enabled(s, R(DialFailed)) && forall r: nat :: 32 <= r <= 64 ==> Enabled(s, R(DialOk(r)))
    case RReplayFirst(b, _) =>
      forall n: nat, err: bool :: n <= |b| && (n < |b| ==> err) ==> Enabled(s, R(ReplayFirst(n, err)))
    case RReplaySecond(b) =>
      forall n: nat, err: bool :: n <= |b| && (n < |b| ==> err) ==> Enabled(s, R(ReplaySecond(n, err)))
    case RCopyRead => Enabled(s, R(CopyReadClose))
    case RCopyWrite => Enabled(s, R(CopyWriteClose))
    case RDeadlines => Enabled(s, R(CopyDeadlines))
    case RReread => forall data: seq<byte>, err: bool :: Enabled(s, R(Reread(data, err)))
    case RPublish(_, _) => Enabled(s, R(Publish))
    case RCleanup(_, _) => Enabled(s, R(Cleanup))
    case RUnlock(_, _) => Enabled(s, R(Unlock))
  }

  ghost predicate WriterGoesOn(s: State) {
    match s.writer
    case WIdle => (forall b: seq<byte> :: Enabled(s, W(WriteCall(b)))) && Enabled(s, W(ReadFromCall))
    case WCheck(_) => Enabled(s, W(WriterCheck))
    case WWantLock(_) => Enabled(s, W(WriterLock)) <==> s.mutex == Free
    case WLocked(b) =>
      forall n: nat, err: bool, now: int ::
        n <= |b| && (n < |b| ==> err) ==> Enabled(s, W(WriterBody(n, err, now)))
    case WUnlock(_, _, _, _) => Enabled(s, W(WriterUnlock))
    case WParked(_, _) => Enabled(s, W(WriterWake)) <==> s.complete
    case WRelock(_, _) => Enabled(s, W(WriterRelock)) <==> s.mutex == Free
    case WReunlock(_, _) => Enabled(s, W(WriterReunlock))
    case WTail(b, n) =>
      forall m: nat, err: bool ::
        n + m <= |b| && (n + m < |b| ==> err) ==> Enabled(s, W(WriterTail(m, err)))
    case WDirect(b) =>
      forall n: nat, err: bool :: n <= |b| && (n < |b| ==> err) ==> Enabled(s, W(WriterDirect(n, err)))
    case CCheck => Enabled(s, W(CopyCheck))
    case CPull => forall chunk: seq<byte>, err: bool :: Enabled(s, W(CopyPull(chunk, err)))
    case CTail => forall chunk: seq<byte>, end: bool :: Enabled(s, W(TailPull(chunk, end)))
    case CTailWrite(b, _) =>
      forall n: nat, err: bool :: n <= |b| && (n < |b| ==> err) ==> Enabled(s, W(TailWrite(n, err)))
  }

  predicate CloserGoesOn(s: State, h: Half) {
    match s.CloserAt(h)
    case CIdle => Enabled(s, C(h, CloseCall))
    case CWant => Enabled(s, C(h, CloserLock)) <==> s.mutex == Free
    case CLocked => Enabled(s, C(h, CloserShut))
    case CDone => Enabled(s, C(h, CloserUnlock))
  }

  lemma NothingHoldsReader(s: State)
    ensures ReaderGoesOn(s)
  {
  }

  lemma NothingHoldsWriter(s: State)
    requires WriterPhase(s.complete, s.writer, s.copy)
    ensures WriterGoesOn(s)
  {
  }

  /** A thread waits for the mutex, or, after a failed provisional write, for the flag, and for nothing else:
      at any other place everything that Go's interfaces allow can happen next. */
  lemma OnlyLocksHoldThreads(s: State, t: Deadline)
    requires Reachable(s)
    ensures ReaderGoesOn(s) && WriterGoesOn(s) && CloserGoesOn(s, ReadHalf) && CloserGoesOn(s, WriteHalf)
    ensures Enabled(s, SetReadDeadline(t)) <==> s.mutex == Free
    ensures Enabled(s, SetWriteDeadline(t)) <==> s.mutex == Free
  {
    ReachableInv(s);
    NothingHoldsReader(s);
    NothingHoldsWriter(s);
  }
}
