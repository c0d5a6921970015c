/** The `retrier` struct of intra/split/retrier.go, updated in place.

    A method is what one thread does between two synchronization points of a Go method; its
    contract says which step of RetryProtocol it is, so that the theorems about runs of that machine
    are theorems about calls of these methods.  The fields `reader`, `writer`,
    `readCloser` and `writeCloser` are the threads' positions and local variables. */
module RetrierObject {
  import opened Common
  import opened SplitHello
  import opened RetryProtocol
  import opened RetryTheorems
  import opened Sockets

  class Retrier {
    const timeout: int
    ghost const provisional: TcpConn
    var conn: TcpConn
    var mutex: Owner
    var hello: seq<byte>
    var retryCompleteFlag: bool
    var closeFlags: set<Half>
    var readDeadline: Deadline
    var writeDeadline: Deadline
    var stats: Stats

    var reader: ReaderPc
    var writer: WriterPc
    var readCloser: CloserPc
    var writeCloser: CloserPc
    var copy: Option<Copy>
    var copied: Option<Copy>

    var ledger: Ledger
    ghost var log: Switch
    ghost var trail: Trail

    ghost function NetView(): Net
      reads this, conn, provisional
    {
      Net(provisional.View(), if conn == provisional then None else Some(conn.View()))
    }

    ghost function View(): State
      reads this, conn, provisional
    {
      State(timeout, mutex, NetView(), hello, retryCompleteFlag, closeFlags, readDeadline, writeDeadline, stats,
            reader, writer, readCloser, writeCloser, copy, copied, ledger, log,
            trail)
    }

    /** DialWithSplitRetry */
    constructor (timeout: int)
      ensures View() == Initial(timeout)
      ensures fresh(conn) && fresh(provisional)
    {
      var c := new TcpConn();
      this.timeout, conn, provisional := timeout, c, c;
      mutex, hello, retryCompleteFlag, closeFlags := Free, [], false, {};
      readDeadline, writeDeadline := None, None;
      stats := Stats(0, 0, 0, false);
      reader, writer, readCloser, writeCloser, copy, copied := RIdle, WIdle, CIdle, CIdle, None, None;
      ledger := Ledger([], [], 0);
      log, trail := Switch([], [], 0, 0, [], [], false, {}, false, None), NO_TRAIL;
    }

    // Read

    method ReadBegins()
      requires reader.RIdle?
      modifies this`reader
      ensures View() == old(View()).(reader := RSocket)
    {
      reader := RSocket;
    }

    method ReadSocket(data: seq<byte>, err: bool)
      requires reader.RSocket?
      modifies this`reader, this`log, this`trail, conn`received
      ensures View() == SocketReturns(old(View()), data, err)
    {
      conn.Read(data);
      trail := trail.(heard := (data, err));
      if !retryCompleteFlag {
        trail := trail.(openRead := Some((data, err)));
      }
      if data == [] && !err {
        ReadReturn(data, err);
      } else {
        reader := RGot(data, err);
      }
    }

    /** The return of Read to its caller. */
    method ReadReturn(data: seq<byte>, err: bool)
      modifies this`reader, this`log, this`trail
      ensures View() == ReadReturns(old(View()), data, err)
    {
      reader := RIdle;
      log := log.(delivered := log.delivered + data);
      trail := trail.(result := (data, err));
    }

    method ReadCheck()
      requires reader.RGot?
      modifies this`reader, this`log, this`trail
      ensures View() == FlagChecked(old(View()))
    {
      if retryCompleteFlag {
        ReadReturn(reader.data, reader.err);
      } else {
        reader := RWantLock(reader.data, reader.err);
      }
    }

    method ReadLock()
      requires reader.RWantLock? && mutex == Free
      modifies this`reader, this`mutex
      ensures View() == ReaderLocks(old(View()))
    {
      mutex := Reader;
      reader := RLocked(reader.data, reader.err);
    }

    method ReadDecide(timedOut: Option<bool>)
      requires reader.RLocked?
      modifies this`reader, this`stats, this`log, this`trail, conn`closed
      ensures View() == Decides(old(View()), timedOut)
    {
      if reader.err {
        if timedOut.Some? {
          stats := stats.(timedOut := timedOut.value);
        }
        trail := trail.(cause := timedOut);
        RetryBegins(reader.data);
      } else {
        reader := RPublish(reader.data, false);
      }
    }

    /** :175 */
    method RetryBegins(data: seq<byte>)
      modifies this`reader, this`log, conn`closed
      ensures
        var s := old(View());
        View() == s.WithCur(s.net.Cur().(closed := true)).(
                    reader := RDial, log := s.log.(retries := s.log.retries + 1, discarded := data))
    {
      log := log.(retries := log.retries + 1, discarded := data);
      conn.Close();
      reader := RDial;
    }

    method ReadPublish()
      requires reader.RPublish?
      modifies this`reader, this`retryCompleteFlag, this`log
      ensures View() == Publishes(old(View()))
    {
      retryCompleteFlag := true;
      log := log.(publications := log.publications + 1, helloAtPublish := hello, sentAtPublish := conn.sent);
      reader := RCleanup(reader.data, reader.err);
    }

    method ReadCleanup()
      requires reader.RCleanup?
      modifies this`reader, this`hello, this`log, conn`readDeadline
      ensures View() == CleansUp(old(View()))
    {
      conn.SetReadDeadline(None);
      hello := [];
      log := log.(deadlineSince := None);
      reader := RUnlock(reader.data, reader.err);
    }

    method ReadUnlock()
      requires reader.RUnlock?
      modifies this`reader, this`mutex, this`log, this`trail
      ensures View() == ReaderUnlocks(old(View()))
    {
      mutex := Free;
      ReadReturn(reader.data, reader.err);
    }

    // retry

    method RetryDialFails()
      requires reader.RDial?
      modifies this`reader, this`trail
      ensures View() == DialFails(old(View()))
    {
      trail := trail.(heard := ([], true), dialed := Some(false));
      reader := RPublish([], true);
    }

    method RetryDials(r: nat)
      requires reader.RDial? && SplitChoice(r)
      modifies this`reader, this`conn, this`stats, this`trail
      ensures View() == Dials(old(View()), r)
      ensures fresh(conn) && conn.segments == []
    {
      Redial();
      var parts := Split(hello, r);
      stats := stats.(split := |parts.0|);
      trail := trail.(dialed := Some(true));
      reader := RReplayFirst(parts.0, parts.1);
    }

    method Redial()
      modifies this`conn
      ensures View() == old(View()).(net := old(View()).net.(redialed := Some(FRESH)))
      ensures fresh(conn) && conn.segments == []
    {
      conn := new TcpConn();
      assert NetView() == old(NetView()).(redialed := Some(FRESH));
    }

    /** A write of the replay. */
    method RetryReplays(b: seq<byte>, n: nat, err: bool, next: ReaderPc)
      requires WriteContract(b, n, err)
      modifies this`reader, this`log, this`trail, conn`sent, conn`segments
      ensures View() == Replays(old(View()), b, n, err, next)
      ensures conn.segments == old(conn.segments) + [b[..n]]
    {
      conn.Write(b, n);
      if err {
        log := log.(truncated := true);
        trail := trail.(heard := ([], true));
        reader := RPublish([], true);
      } else {
        reader := next;
      }
    }

    method RetryReplaysFirst(n: nat, err: bool)
      requires reader.RReplayFirst? && WriteContract(reader.first, n, err)
      modifies this`reader, this`log, this`trail, conn`sent, conn`segments
      ensures View() == Replays(old(View()), old(reader).first, n, err, RReplaySecond(old(reader).second))
      ensures conn.segments == old(conn.segments) + [old(reader).first[..n]]
    {
      RetryReplays(reader.first, n, err, RReplaySecond(reader.second));
    }

    method RetryReplaysSecond(n: nat, err: bool)
      requires reader.RReplaySecond? && WriteContract(reader.second, n, err)
      modifies this`reader, this`log, this`trail, conn`sent, conn`segments
      ensures View() == Replays(old(View()), old(reader).second, n, err, RCopyRead)
      ensures conn.segments == old(conn.segments) + [old(reader).second[..n]]
    {
      RetryReplays(reader.second, n, err, RCopyRead);
    }

    /** When nothing fails, the new socket gets `hello` in two segments: the first has 1 to 64 bytes if there
        are at least 2, and at least 32 if there are at least 64. */
    method RetrySplits(r: nat)
      requires reader.RDial? && SplitChoice(r)
      modifies this`reader, this`conn, this`stats, this`log, this`trail
      ensures reader.RCopyRead? && hello == old(hello) && |conn.segments| == 2
      ensures conn.segments[0] + conn.segments[1] == hello && stats.split == |conn.segments[0]|
      ensures |hello| >= 2 ==> 1 <= |conn.segments[0]| <= 64 && |conn.segments[0]| <= |conn.segments[1]|
      ensures |hello| >= 64 ==> |conn.segments[0]| >= 32
    {
      ghost var parts := Split(hello, r);
      RetryDials(r);
      assert View().reader == RReplayFirst(parts.0, parts.1);
      RetryReplaysFirst(|reader.first|, false);
      assert View().reader == RReplaySecond(parts.1);
      RetryReplaysSecond(|reader.second|, false);
      assert parts.0[..|parts.0|] == parts.0 && parts.1[..|parts.1|] == parts.1;
    }

    method RetryCopiesReadClose()
      requires reader.RCopyRead?
      modifies this`reader, conn`shut
      ensures View() == CopiesClose(old(View()), ReadHalf, RCopyWrite)
    {
      if ReadHalf in closeFlags {
        conn.CloseHalf(ReadHalf);
      }
      reader := RCopyWrite;
    }

    method RetryCopiesWriteClose()
      requires reader.RCopyWrite?
      modifies this`reader, conn`shut
      ensures View() == CopiesClose(old(View()), WriteHalf, RDeadlines)
    {
      if WriteHalf in closeFlags {
        conn.CloseHalf(WriteHalf);
      }
      reader := RDeadlines;
    }

    method RetryCopiesDeadlines()
      requires reader.RDeadlines?
      modifies this`reader, conn`readDeadline, conn`writeDeadline
      ensures View() == CopiesDeadlines(old(View()))
    {
      conn.SetReadDeadline(readDeadline);
      conn.SetWriteDeadline(writeDeadline);
      reader := RReread;
    }

    method RetryRereads(data: seq<byte>, err: bool)
      requires reader.RReread?
      modifies this`reader, this`trail, conn`received
      ensures View() == Rereads(old(View()), data, err)
    {
      conn.Read(data);
      trail := trail.(heard := (data, err));
      reader := RPublish(data, err);
    }

    // Write

    method WriteBegin(b: seq<byte>)
      requires writer.WIdle?
      modifies this`writer, this`ledger
      ensures View() == WriteBegins(old(View()), b)
    {
      ledger := Offered(ledger, b);
      writer := WCheck(b);
    }

    method WriteCheck()
      requires writer.WCheck?
      modifies this`writer
      ensures View() == WriterChecks(old(View()))
    {
      if retryCompleteFlag {
        writer := WDirect(writer.b);
      } else {
        writer := WWantLock(writer.b);
      }
    }

    method WriteLock()
      requires writer.WWantLock? && mutex == Free
      modifies this`writer, this`mutex
      ensures View() == WriterLocks(old(View()))
    {
      mutex := Writer;
      writer := WLocked(writer.b);
    }

    method WriteBody(n: nat, err: bool, now: int)
      requires writer.WLocked? && WriteContract(writer.b, n, err)
      modifies this`writer, this`hello, this`stats, this`trail, conn`sent, conn`segments, conn`readDeadline
      ensures View() == WritesProvisionally(old(View()), n, err, now)
    {
      if retryCompleteFlag {
        writer := WUnlock(writer.b, 0, false, false);
      } else {
        WriteAttempt(n, err, now);
      }
    }

    /** :243-254 */
    method WriteAttempt(n: nat, err: bool, now: int)
      requires writer.WLocked? && WriteContract(writer.b, n, err) && !retryCompleteFlag
      modifies this`writer, this`hello, this`stats, this`trail, conn`sent, conn`segments, conn`readDeadline
      ensures View() == WritesProvisionally(old(View()), n, err, now)
    {
      var b := writer.b;
      WriteHello(b, n, now);
      writer := WUnlock(b, n, err, true);
      trail := trail.(attempts := trail.attempts + 1, writtenAt := Some(now), writeFailed := err);
    }

    /** A write to the provisional connection, which is remembered for the replay. */
    method WriteHello(b: seq<byte>, n: nat, now: int)
      requires n <= |b|
      modifies this`hello, this`stats, conn`sent, conn`segments, conn`readDeadline
      ensures
        var s := old(View());
        var c := s.net.Cur().(sent := s.net.Cur().sent + b[..n], readDeadline := Some(now + timeout));
        View() == s.WithCur(c).(hello := s.hello + b[..n],
                                stats := s.stats.(chunks := s.stats.chunks + 1, bytes := |s.hello + b[..n]|))
    {
      conn.Write(b, n);
      hello := hello + b[..n];
      stats := stats.(chunks := stats.chunks + 1, bytes := |hello|);
      conn.SetReadDeadline(Some(now + timeout));
    }

    /** The return of Write, to its caller or to the loop of ReadFrom. */
    method WriteReturn(b: seq<byte>, n: nat, err: bool)
      requires n <= |b|
      modifies this`writer, this`ledger, this`copy, this`copied, this`trail
      ensures View() == WriteReturns(old(View()), b, n, err)
    {
      WriteReports(b, n, err);
      if copy.None? {
        writer := WIdle;
      } else {
        ReadFromGets(n, err);
      }
    }

    method WriteReports(b: seq<byte>, n: nat, err: bool)
      requires n <= |b|
      modifies this`ledger, this`trail
      ensures
        var s := old(View());
        View() == s.(ledger := Reported(s.ledger, b, n), trail := s.trail.(written := Some((|b|, n, err))))
    {
      trail := trail.(written := Some((|b|, n, err)));
      ledger := Reported(ledger, b, n);
    }

    /** :291-292 */
    method ReadFromGets(n: nat, err: bool)
      requires copy.Some?
      modifies this`writer, this`copy, this`copied
      ensures
        var (s, last) := (old(View()), old(copy).value);
        var k := Some(Copy(n, last.earlier + last.count, last.from));
        View() == s.(writer := if err then WIdle else CCheck, copy := if err then None else k,
                     copied := if err then k else s.copied)
    {
      var k := Copy(n, copy.value.earlier + copy.value.count, copy.value.from);
      if err {
        writer, copy, copied := WIdle, None, Some(k);
      } else {
        writer, copy := CCheck, Some(k);
      }
    }

    method WriteUnlock()
      requires writer.WUnlock? && writer.n <= |writer.b|
      modifies this`writer, this`mutex, this`ledger, this`copy, this`copied, this`trail
      ensures View() == WriterUnlocks(old(View()))
    {
      var WUnlock(b, n, err, attempted) := writer;
      mutex := Free;
      if !attempted {
        writer := WDirect(b);
      } else if err {
        writer := WParked(b, n);
      } else {
        WriteReturn(b, n, false);
      }
    }

    method WriteWake()
      requires writer.WParked? && retryCompleteFlag
      modifies this`writer
      ensures View() == WriterWakes(old(View()))
    {
      writer := WRelock(writer.b, writer.n);
    }

    method WriteRelock()
      requires writer.WRelock? && mutex == Free
      modifies this`writer, this`mutex
      ensures View() == WriterRelocks(old(View()))
    {
      mutex := Writer;
      writer := WReunlock(writer.b, writer.n);
    }

    method WriteReunlock()
      requires writer.WReunlock?
      modifies this`writer, this`mutex
      ensures View() == WriterReunlocks(old(View()))
    {
      mutex := Free;
      writer := WTail(writer.b, writer.n);
    }

    method WriteTail(m: nat, err: bool)
      requires writer.WTail? && writer.n <= |writer.b| && WriteContract(writer.b[writer.n..], m, err)
      modifies this`writer, this`ledger, this`copy, this`copied, this`trail, conn`sent, conn`segments
      ensures View() == WritesTail(old(View()), m, err)
    {
      WriteLands(m, err);
      WriteReturn(writer.b, writer.n, err);
    }

    method WriteLands(m: nat, err: bool)
      requires writer.WTail? && writer.n + m <= |writer.b|
      modifies this`writer, this`trail, conn`sent, conn`segments
      ensures View() == Landed(old(View()), m, err)
    {
      var WTail(b, n) := writer;
      conn.Write(b[n..], m);
      writer := WTail(b, n + m);
      trail := trail.(writeFailed := err);
    }

    method WriteDirect(n: nat, err: bool)
      requires writer.WDirect? && WriteContract(writer.b, n, err)
      modifies this`writer, this`ledger, this`copy, this`copied, this`trail, conn`sent, conn`segments
      ensures View() == WritesDirectly(old(View()), n, err)
    {
      var b := writer.b;
      assert b[0..] == b;
      conn.Write(b, n);
      trail := trail.(writeFailed := err);
      WriteReturn(b, n, err);
    }

    // ReadFrom

    method ReadFromBegin()
      requires writer.WIdle?
      modifies this`writer, this`copy, this`trail
      ensures View() == CopyBegins(old(View()))
    {
      trail := trail.(shortBefore := ledger.shortfall);
      copy := Some(Copy(0, 0, |ledger.accepted|));
      writer := CCheck;
    }

    method ReadFromCheck()
      requires writer.CCheck?
      modifies this`writer
      ensures View() == CopyChecks(old(View()))
    {
      writer := if retryCompleteFlag then CTail else CPull;
    }

    method ReadFromPull(chunk: seq<byte>, err: bool)
      requires writer.CPull? && copy.Some?
      modifies this`writer, this`ledger, this`copy, this`copied
      ensures View() == CopyPulls(old(View()), chunk, err)
    {
      if err {
        ReadFromFails(chunk);
      } else {
        ledger := Offered(ledger, chunk);
        writer := WCheck(chunk);
      }
    }

    /** The chunk that comes with an error is dropped. */
    method ReadFromFails(chunk: seq<byte>)
      requires copy.Some?
      modifies this`writer, this`ledger, this`copy, this`copied
      ensures View() == CopyPulls(old(View()), chunk, true)
    {
      var k := copy.value;
      ledger := Reported(Offered(ledger, chunk), chunk, 0);
      writer, copy, copied := WIdle, None, Some(Copy(0, k.earlier + k.count, k.from));
    }

    method ReadFromTailPull(chunk: seq<byte>, end: bool)
      requires writer.CTail?
      modifies this`writer, this`ledger
      ensures View() == TailPulls(old(View()), chunk, end)
    {
      ledger := Offered(ledger, chunk);
      writer := CTailWrite(chunk, end);
    }

    method ReadFromTailWrite(n: nat, err: bool)
      requires writer.CTailWrite? && copy.Some? && WriteContract(writer.b, n, err)
      modifies this`writer, this`ledger, this`copy, this`copied, conn`sent, conn`segments
      ensures View() == TailWrites(old(View()), n, err)
    {
      var CTailWrite(b, end) := writer;
      conn.Write(b, n);
      ReadFromCounts(b, n, err || end);
    }

    /** The socket's own ReadFrom has written `n` bytes of `b`, and is perhaps at its end. */
    method ReadFromCounts(b: seq<byte>, n: nat, end: bool)
      requires copy.Some? && n <= |b|
      modifies this`writer, this`ledger, this`copy, this`copied
      ensures
        var s := old(View());
        var k := Some(s.copy.value.(count := s.copy.value.count + n));
        View() == s.(ledger := Reported(s.ledger, b, n),
                     writer := if end then WIdle else CTail,
                     copy := if end then None else k,
                     copied := if end then k else s.copied)
    {
      ledger := Reported(ledger, b, n);
      var k := copy.value.(count := copy.value.count + n);
      if end {
        writer, copy, copied := WIdle, None, Some(k);
      } else {
        writer, copy := CTail, Some(k);
      }
    }

    // CloseRead and CloseWrite

    method SetCloser(h: Half, pc: CloserPc)
      modifies this`readCloser, this`writeCloser
      ensures View() == old(View()).WithCloser(h, pc)
    {
      if h == ReadHalf {
        readCloser := pc;
      } else {
        writeCloser := pc;
      }
    }

    method CloseBegin(h: Half)
      requires View().CloserAt(h).CIdle?
      modifies this`readCloser, this`writeCloser, this`closeFlags
      ensures View() == CloseBegins(old(View()), h)
    {
      if h !in closeFlags {
        closeFlags := closeFlags + {h};
      }
      assert h in old(closeFlags) ==> old(closeFlags) + {h} == old(closeFlags);
      SetCloser(h, CWant);
    }

    method CloseLock(h: Half)
      requires View().CloserAt(h).CWant? && mutex == Free
      modifies this`readCloser, this`writeCloser, this`mutex
      ensures View() == CloserLocks(old(View()), h)
    {
      mutex := Closer(h);
      SetCloser(h, CLocked);
    }

    method CloseShut(h: Half)
      requires View().CloserAt(h).CLocked?
      modifies this`readCloser, this`writeCloser, this`log, conn`shut
      ensures View() == Shuts(old(View()), h)
    {
      conn.CloseHalf(h);
      if conn != provisional {
        log := log.(lateShut := log.lateShut + {h});
      }
      SetCloser(h, CDone);
    }

    method CloseUnlock(h: Half)
      requires View().CloserAt(h).CDone?
      modifies this`readCloser, this`writeCloser, this`mutex
      ensures View() == CloserUnlocks(old(View()), h)
    {
      mutex := Free;
      SetCloser(h, CIdle);
    }

    // Deadlines; the whole call holds the mutex

    method CallSetReadDeadline(t: Deadline)
      requires mutex == Free
      modifies this`readDeadline, this`log, conn`readDeadline
      ensures View() == SetsReadDeadline(old(View()), t)
    {
      readDeadline := t;
      if retryCompleteFlag {
        conn.SetReadDeadline(t);
        log := log.(deadlineSince := t);
      }
    }

    method CallSetWriteDeadline(t: Deadline)
      requires mutex == Free
      modifies this`writeDeadline, this`log, conn`writeDeadline
      ensures View() == SetsWriteDeadline(old(View()), t)
    {
      writeDeadline := t;
      conn.SetWriteDeadline(t);
      log := log.(lateDeadline := log.lateDeadline || conn != provisional);
    }

    // Any step of the machine, made on the object

    method PerformReader(e: ReaderEvent)
      requires ReaderEnabled(View(), e)
      modifies this, conn
      ensures View() == ReaderStep(old(View()), e)
      ensures conn == old(conn) || fresh(conn)
    {
      match e
      case ReadCall => ReadBegins();
      case SocketRead(data, err) => ReadSocket(data, err);
      case CheckFlag => ReadCheck();
      case Lock => ReadLock();
      case Decide(timedOut) => ReadDecide(timedOut);
      case DialFailed => RetryDialFails();
      case DialOk(r) => RetryDials(r);
      case ReplayFirst(n, err) => RetryReplaysFirst(n, err);
      case ReplaySecond(n, err) => RetryReplaysSecond(n, err);
      case CopyReadClose => RetryCopiesReadClose();
      case CopyWriteClose => RetryCopiesWriteClose();
      case CopyDeadlines => RetryCopiesDeadlines();
      case Reread(data, err) => RetryRereads(data, err);
      case Publish => ReadPublish();
      case Cleanup => ReadCleanup();
      case Unlock => ReadUnlock();
    }

    method PerformWriter(e: WriterEvent)
      requires WriterEnabled(View(), e)
      modifies this, conn
      ensures View() == WriterStep(old(View()), e) && conn == old(conn)
    {
      match e
      case WriteCall(b) => WriteBegin(b);
      case WriterCheck => WriteCheck();
      case WriterLock => WriteLock();
      case WriterBody(n, err, now) => WriteBody(n, err, now);
      case WriterUnlock => WriteUnlock();
      case WriterWake => WriteWake();
      case WriterRelock => WriteRelock();
      case WriterReunlock => WriteReunlock();
      case WriterTail(m, err) => WriteTail(m, err);
      case WriterDirect(n, err) => WriteDirect(n, err);
      case ReadFromCall => ReadFromBegin();
      case CopyCheck => ReadFromCheck();
      case CopyPull(chunk, err) => ReadFromPull(chunk, err);
      case TailPull(chunk, end) => ReadFromTailPull(chunk, end);
      case TailWrite(n, err) => ReadFromTailWrite(n, err);
    }

    method Perform(e: Event)
      requires Enabled(View(), e)
      modifies this, conn
      ensures View() == Step(old(View()), e)
      ensures conn == old(conn) || fresh(conn)
    {
      match e
      case R(r) => PerformReader(r);
      case W(w) => PerformWriter(w);
      case C(h, CloseCall) => CloseBegin(h);
      case C(h, CloserLock) => CloseLock(h);
      case C(h, CloserShut) => CloseShut(h);
      case C(h, CloserUnlock) => CloseUnlock(h);
      case SetReadDeadline(t) => CallSetReadDeadline(t);
      case SetWriteDeadline(t) => CallSetWriteDeadline(t);
    }
  }

  /** Every run of the machine is a run of the object, which therefore keeps the promises that
      RetryTheorems makes of reachable states. */
  method Run(timeout: int, es: seq<Event>) returns (r: Retrier)
    requires Executable(Initial(timeout), es)
    ensures fresh(r) && r.View() == Exec(Initial(timeout), es) && Reachable(r.View())
  {
    r := new Retrier(timeout);
    for i := 0 to |es|
      invariant fresh(r) && fresh(r.conn)
      invariant Executable(r.View(), es[i..]) && Exec(r.View(), es[i..]) == Exec(Initial(timeout), es)
    {
      assert es[i..][1..] == es[i + 1..];
      r.Perform(es[i]);
    }
  }
}
