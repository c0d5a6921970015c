/** intra/split/retrier.go as a state machine.

    Four actors share one `retrier`: the thread that calls Read, the thread that calls Write and
    ReadFrom, and the callers of CloseRead and CloseWrite.  (The documented use has the first two
    threads also make the close calls; here they may run at any moment.)  SetReadDeadline and
    SetWriteDeadline may be called by anybody.  One event is what an actor does between two
    synchronization points: a lock operation, a flag check, a flag close or a socket call.  Events
    carry the choices of the network, the clock and the random generator.
 */
module RetryProtocol {
  import opened Common
  import opened SplitHello

  type Deadline = Option<int>

  datatype Half = ReadHalf | WriteHalf

  /** A TCP socket as this program sees it.  `sent` and `received` are everything that Write calls
      handed to it and that Read calls took from it. */
  datatype Conn = Conn(
    sent: seq<byte>, received: seq<byte>, shut: set<Half>, closed: bool,
    readDeadline: Deadline, writeDeadline: Deadline)
  {
    predicate Shut(h: Half) {
      closed || h in shut
    }
  }

  const FRESH := Conn([], [], {}, false, None, None)

  datatype Owner = Free | Reader | Writer | Closer(half: Half)

  /** Where the Read thread is; the line numbers are those of retrier.go. */
  datatype ReaderPc =
    | RIdle
    | RSocket                                            // :150
    | RGot(data: seq<byte>, err: bool)                   // :155
    | RWantLock(data: seq<byte>, err: bool)              // :156
    | RLocked(data: seq<byte>, err: bool)                // :157
    | RDial                                              // :177
    | RReplayFirst(first: seq<byte>, second: seq<byte>)  // :183
    | RReplaySecond(second: seq<byte>)                   // :186
    | RCopyRead                                          // :193
    | RCopyWrite                                         // :196
    | RDeadlines                                         // :200
    | RReread                                            // :202
    | RPublish(data: seq<byte>, err: bool)               // :165
    | RCleanup(data: seq<byte>, err: bool)               // :167
    | RUnlock(data: seq<byte>, err: bool)                // :169

  /** Where the Write / ReadFrom thread is. */
  datatype WriterPc =
    | WIdle
    | WCheck(b: seq<byte>)                                       // :237
    | WWantLock(b: seq<byte>)                                    // :241
    | WLocked(b: seq<byte>)                                      // :242
    | WUnlock(b: seq<byte>, n: nat, err: bool, attempted: bool)  // :256
    | WParked(b: seq<byte>, n: nat)                              // :264
    | WRelock(b: seq<byte>, n: nat)                              // :265
    | WReunlock(b: seq<byte>, n: nat)                            // :266
    | WTail(b: seq<byte>, n: nat)                                // :267
    | WDirect(b: seq<byte>)                                      // :273
    | CCheck                                                     // :290
    | CPull                                                      // :291, :281
    | CTail                                                      // :297, pulling
    | CTailWrite(b: seq<byte>, end: bool)                        // :297, writing

  datatype CloserPc = CIdle | CWant | CLocked | CDone

  datatype Stats = Stats(bytes: nat, chunks: nat, split: nat, timedOut: bool)

  /** A ReadFrom call: `count` is its result variable and `earlier` what the assignment at :291 has
      overwritten; `from` is how many bytes had been accepted before the call. */
  datatype Copy = Copy(count: nat, earlier: nat, from: nat)

  /** r.conn: the provisional socket until the retry has dialed another. */
  datatype Net = Net(provisional: Conn, redialed: Option<Conn>)
  {
    function Cur(): Conn {
      if redialed.Some? then redialed.value else provisional
    }

    function WithCur(c: Conn): Net {
      if redialed.Some? then Net(provisional, Some(c)) else Net(c, None)
    }
  }

  // What an observer of the calls remembers; no step reads it.

  datatype Ledger = Ledger(
    offered: seq<byte>,          // every byte passed to Write or pulled by ReadFrom
    accepted: seq<byte>,         // every byte that a finished call reported as written
    shortfall: nat)              // bytes offered but reported as not written

  datatype Switch = Switch(
    delivered: seq<byte>,        // every byte that Read returned
    discarded: seq<byte>,        // bytes that came with the failed first read
    retries: nat,                // calls of retry
    publications: nat,           // times retryCompleteFlag was closed
    helloAtPublish: seq<byte>,   // hello when the flag closed
    sentAtPublish: seq<byte>,    // what r.conn had been sent when the flag closed
    truncated: bool,             // a replay write failed
    lateShut: set<Half>,         // halves that a close call shut on the redialed socket
    lateDeadline: bool,          // SetWriteDeadline was called on the redialed socket
    deadlineSince: Deadline)     // read deadline set since the switch was cleaned up

  /** What the network and the clock have said, and what was returned for it. */
  datatype Trail = Trail(
    openRead: Option<(seq<byte>, bool)>,   // the last socket read that returned while the flag was open
    cause: Option<bool>,                   // whether the error of that read was a timeout, if it said so
    dialed: Option<bool>,                  // whether the redial succeeded
    heard: (seq<byte>, bool),              // the network's last answer to the Read in progress
    result: (seq<byte>, bool),             // what the last Read returned
    attempts: nat,                         // provisional writes
    writtenAt: Option<int>,                // when the last of them was made
    writeFailed: bool,                     // whether the last socket write of a Write failed
    written: Option<(nat, nat, bool)>,     // the last Write: what it was given, and what it returned
    shortBefore: nat)                      // the shortfall when the ReadFrom in progress began

  const NO_TRAIL := Trail(None, None, None, ([], false), ([], false), 0, None, false, None, 0)

  datatype State = State(
    timeout: int,
    mutex: Owner,
    net: Net,
    hello: seq<byte>,
    complete: bool,              // retryCompleteFlag
    closeFlags: set<Half>,       // readCloseFlag, writeCloseFlag
    readDeadline: Deadline,
    writeDeadline: Deadline,
    stats: Stats,
    reader: ReaderPc,
    writer: WriterPc,
    readCloser: CloserPc,
    writeCloser: CloserPc,
    copy: Option<Copy>,          // the ReadFrom call in progress
    copied: Option<Copy>,        // the last finished ReadFrom call
    ledger: Ledger,
    log: Switch,
    trail: Trail)
  {
    function WithCur(c: Conn): State {
      this.(net := net.WithCur(c))
    }

    function CloserAt(h: Half): CloserPc {
      if h == ReadHalf then readCloser else writeCloser
    }

    function WithCloser(h: Half, pc: CloserPc): State {
      if h == ReadHalf then this.(readCloser := pc) else this.(writeCloser := pc)
    }
  }

  /** DialWithSplitRetry: the first dial succeeded. */
  function Initial(timeout: int): State {
    State(timeout, Free, Net(FRESH, None), [], false, {}, None, None, Stats(0, 0, 0, false),
          RIdle, WIdle, CIdle, CIdle, None, None,
          Ledger([], [], 0), Switch([], [], 0, 0, [], [], false, {}, false, None), NO_TRAIL)
  }

  datatype ReaderEvent =
    | ReadCall
    | SocketRead(data: seq<byte>, err: bool)
    | CheckFlag
    | Lock
    | Decide(timedOut: Option<bool>)
    | DialFailed
    | DialOk(r: nat)
    | ReplayFirst(n: nat, err: bool)
    | ReplaySecond(n: nat, err: bool)
    | CopyReadClose
    | CopyWriteClose
    | CopyDeadlines
    | Reread(data: seq<byte>, err: bool)
    | Publish
    | Cleanup
    | Unlock

  datatype WriterEvent =
    | WriteCall(b: seq<byte>)
    | WriterCheck
    | WriterLock
    | WriterBody(n: nat, err: bool, now: int)
    | WriterUnlock
    | WriterWake
    | WriterRelock
    | WriterReunlock
    | WriterTail(m: nat, err: bool)
    | WriterDirect(n: nat, err: bool)
    | ReadFromCall
    | CopyCheck
    | CopyPull(chunk: seq<byte>, err: bool)
    | TailPull(chunk: seq<byte>, end: bool)
    | TailWrite(n: nat, err: bool)

  datatype CloserEvent = CloseCall | CloserLock | CloserShut | CloserUnlock

  datatype Event =
    | R(r: ReaderEvent)
    | W(w: WriterEvent)
    | C(half: Half, c: CloserEvent)
    | SetReadDeadline(t: Deadline)
    | SetWriteDeadline(t: Deadline)

  /** io.Writer: a short write comes with an error. */
  predicate WriteContract(b: seq<byte>, n: nat, err: bool) {
    n <= |b| && (n < |b| ==> err)
  }

  // Read and retry

  predicate ReaderEnabled(s: State, e: ReaderEvent) {
    match e
    case ReadCall => s.reader.RIdle?
    case SocketRead(_, _) => s.reader.RSocket?
    case CheckFlag => s.reader.RGot?
    case Lock => s.reader.RWantLock? && s.mutex == Free
    case Decide(_) => s.reader.RLocked?
    case DialFailed => s.reader.RDial?
    case DialOk(r) => s.reader.RDial? && SplitChoice(r)
    case ReplayFirst(n, err) => s.reader.RReplayFirst? && WriteContract(s.reader.first, n, err)
    case ReplaySecond(n, err) => s.reader.RReplaySecond? && WriteContract(s.reader.second, n, err)
    case CopyReadClose => s.reader.RCopyRead?
    case CopyWriteClose => s.reader.RCopyWrite?
    case CopyDeadlines => s.reader.RDeadlines?
    case Reread(_, _) => s.reader.RReread?
    case Publish => s.reader.RPublish?
    case Cleanup => s.reader.RCleanup?
    case Unlock => s.reader.RUnlock?
  }

  function ReadReturns(s: State, data: seq<byte>, err: bool): State {
    s.(reader := RIdle, log := s.log.(delivered := s.log.delivered + data), trail := s.trail.(result := (data, err)))
  }

  /** :150-154: the socket returns; nothing at all makes Read return nothing. */
  function SocketReturns(s: State, data: seq<byte>, err: bool): State {
    var c := s.net.Cur();
    var t := s.WithCur(c.(received := c.received + data)).(
      trail := s.trail.(heard := (data, err), openRead := if s.complete then s.trail.openRead else Some((data, err))));
    if data == [] && !err then ReadReturns(t, data, err) else t.(reader := RGot(data, err))
  }

  /** :155 */
  function FlagChecked(s: State): State
    requires s.reader.RGot?
  {
    if s.complete then ReadReturns(s, s.reader.data, s.reader.err)
    else s.(reader := RWantLock(s.reader.data, s.reader.err))
  }

  /** :156 */
  function ReaderLocks(s: State): State
    requires s.reader.RWantLock?
  {
    s.(mutex := Reader, reader := RLocked(s.reader.data, s.reader.err))
  }

  /** :157-163 and :175: a failed read closes the socket and starts the retry. */
  function Decides(s: State, timedOut: Option<bool>): State
    requires s.reader.RLocked?
  {
    if s.reader.err then
      s.WithCur(s.net.Cur().(closed := true)).(
        reader := RDial,
        stats := if timedOut.Some? then s.stats.(timedOut := timedOut.value) else s.stats,
        trail := s.trail.(cause := timedOut),
        log := s.log.(retries := s.log.retries + 1, discarded := s.reader.data))
    else s.(reader := RPublish(s.reader.data, false))
  }

  /** :177-179 */
  function DialFails(s: State): State {
    s.(reader := RPublish([], true), trail := s.trail.(heard := ([], true), dialed := Some(false)))
  }

  /** :177-182: the new socket, and the cut of what it will be sent. */
  function Dials(s: State, r: nat): State
    requires SplitChoice(r)
  {
    var (first, second) := Split(s.hello, r);
    s.(net := s.net.(redialed := Some(FRESH)), stats := s.stats.(split := |first|),
       reader := RReplayFirst(first, second), trail := s.trail.(dialed := Some(true)))
  }

  /** :183-188: the socket takes `n` bytes of `b`; an error ends the retry. */
  function Replays(s: State, b: seq<byte>, n: nat, err: bool, next: ReaderPc): State
    requires WriteContract(b, n, err)
  {
    var c := s.net.Cur();
    var t := s.WithCur(c.(sent := c.sent + b[..n]));
    if err then
      t.(reader := RPublish([], true), log := s.log.(truncated := true), trail := s.trail.(heard := ([], true)))
    else t.(reader := next)
  }

  /** :193-198 */
  function CopiesClose(s: State, h: Half, next: ReaderPc): State {
    var c := s.net.Cur();
    (if h in s.closeFlags then s.WithCur(c.(shut := c.shut + {h})) else s).(reader := next)
  }

  /** :200-201 */
  function CopiesDeadlines(s: State): State {
    s.WithCur(s.net.Cur().(readDeadline := s.readDeadline, writeDeadline := s.writeDeadline)).(reader := RReread)
  }

  /** :202 */
  function Rereads(s: State, data: seq<byte>, err: bool): State {
    var c := s.net.Cur();
    s.WithCur(c.(received := c.received + data)).(
      reader := RPublish(data, err), trail := s.trail.(heard := (data, err)))
  }

  /** :165 */
  function Publishes(s: State): State
    requires s.reader.RPublish?
  {
    s.(complete := true,
       reader := RCleanup(s.reader.data, s.reader.err),
       log := s.log.(publications := s.log.publications + 1,
                       helloAtPublish := s.hello, sentAtPublish := s.net.Cur().sent))
  }

  /** :167-168 */
  function CleansUp(s: State): State
    requires s.reader.RCleanup?
  {
    s.WithCur(s.net.Cur().(readDeadline := None)).(
      hello := [], reader := RUnlock(s.reader.data, s.reader.err), log := s.log.(deadlineSince := None))
  }

  /** :169-171 */
  function ReaderUnlocks(s: State): State
    requires s.reader.RUnlock?
  {
    ReadReturns(s.(mutex := Free), s.reader.data, s.reader.err)
  }

  function ReaderStep(s: State, e: ReaderEvent): State
    requires ReaderEnabled(s, e)
  {
    match e
    case ReadCall => s.(reader := RSocket)
    case SocketRead(data, err) => SocketReturns(s, data, err)
    case CheckFlag => FlagChecked(s)
    case Lock => ReaderLocks(s)
    case Decide(timedOut) => Decides(s, timedOut)
    case DialFailed => DialFails(s)
    case DialOk(r) => Dials(s, r)
    case ReplayFirst(n, err) => Replays(s, s.reader.first, n, err, RReplaySecond(s.reader.second))
    case ReplaySecond(n, err) => Replays(s, s.reader.second, n, err, RCopyRead)
    case CopyReadClose => CopiesClose(s, ReadHalf, RCopyWrite)
    case CopyWriteClose => CopiesClose(s, WriteHalf, RDeadlines)
    case CopyDeadlines => CopiesDeadlines(s)
    case Reread(data, err) => Rereads(s, data, err)
    case Publish => Publishes(s)
    case Cleanup => CleansUp(s)
    case Unlock => ReaderUnlocks(s)
  }

  // Write and ReadFrom

  predicate WriterEnabled(s: State, e: WriterEvent) {
    match e
    case WriteCall(_) => s.writer.WIdle?
    case WriterCheck => s.writer.WCheck?
    case WriterLock => s.writer.WWantLock? && s.mutex == Free
    case WriterBody(n, err, _) => s.writer.WLocked? && WriteContract(s.writer.b, n, err)
    case WriterUnlock => s.writer.WUnlock? && s.writer.n <= |s.writer.b|
    case WriterWake => s.writer.WParked? && s.complete
    case WriterRelock => s.writer.WRelock? && s.mutex == Free
    case WriterReunlock => s.writer.WReunlock?
    case WriterTail(m, err) =>
      s.writer.WTail? && s.writer.n <= |s.writer.b| && WriteContract(s.writer.b[s.writer.n..], m, err)
    case WriterDirect(n, err) => s.writer.WDirect? && WriteContract(s.writer.b, n, err)
    case ReadFromCall => s.writer.WIdle?
    case CopyCheck => s.writer.CCheck?
    case CopyPull(_, _) => s.writer.CPull? && s.copy.Some?
    case TailPull(_, _) => s.writer.CTail?
    case TailWrite(n, err) => s.writer.CTailWrite? && s.copy.Some? && WriteContract(s.writer.b, n, err)
  }

  /** A call has dealt with `b`, of which it reports `n` bytes as written. */
  function Reported(l: Ledger, b: seq<byte>, n: nat): Ledger
    requires n <= |b|
  {
    Ledger(l.offered, l.accepted + b[..n], l.shortfall + |b| - n)
  }

  function Offered(l: Ledger, b: seq<byte>): Ledger {
    l.(offered := l.offered + b)
  }

  /** Write returns (n, err), to its caller or to the loop of ReadFrom at :291. */
  function WriteReturns(s: State, b: seq<byte>, n: nat, err: bool): State
    requires n <= |b|
  {
    var k := if s.copy.None? then None else
      var k := s.copy.value; Some(Copy(n, k.earlier + k.count, k.from));
    s.(ledger := Reported(s.ledger, b, n),
       writer := if k.None? || err then WIdle else CCheck,
       copy := if err then None else k,
       copied := if k.Some? && err then k else s.copied,
       trail := s.trail.(written := Some((|b|, n, err))))
  }

  /** Write(b) is called. */
  function WriteBegins(s: State, b: seq<byte>): State {
    s.(writer := WCheck(b), ledger := Offered(s.ledger, b))
  }

  /** :237, the check without the lock */
  function WriterChecks(s: State): State
    requires s.writer.WCheck?
  {
    s.(writer := if s.complete then WDirect(s.writer.b) else WWantLock(s.writer.b))
  }

  /** :241 */
  function WriterLocks(s: State): State
    requires s.writer.WWantLock?
  {
    s.(mutex := Writer, writer := WLocked(s.writer.b))
  }

  /** :242-255, the check under the lock and the provisional write */
  function WritesProvisionally(s: State, n: nat, err: bool, now: int): State
    requires s.writer.WLocked? && WriteContract(s.writer.b, n, err)
  {
    var b := s.writer.b;
    if s.complete then s.(writer := WUnlock(b, 0, false, false))
    else
      var c := s.net.Cur();
      var hello := s.hello + b[..n];
      s.WithCur(c.(sent := c.sent + b[..n], readDeadline := Some(now + s.timeout))).(
        hello := hello,
        stats := s.stats.(chunks := s.stats.chunks + 1, bytes := |hello|),
        writer := WUnlock(b, n, err, true),
        trail := s.trail.(attempts := s.trail.attempts + 1, writtenAt := Some(now), writeFailed := err))
  }

  /** :256-264 */
  function WriterUnlocks(s: State): State
    requires s.writer.WUnlock? && s.writer.n <= |s.writer.b|
  {
    var WUnlock(b, n, err, attempted) := s.writer;
    if !attempted then s.(mutex := Free, writer := WDirect(b))
    else
      var t := s.(mutex := Free, writer := WParked(b, n));
      if err then t else WriteReturns(t, b, n, false)
  }

  /** :264, the flag has closed */
  function WriterWakes(s: State): State
    requires s.writer.WParked?
  {
    s.(writer := WRelock(s.writer.b, s.writer.n))
  }

  /** :265 */
  function WriterRelocks(s: State): State
    requires s.writer.WRelock?
  {
    s.(mutex := Writer, writer := WReunlock(s.writer.b, s.writer.n))
  }

  /** :266 */
  function WriterReunlocks(s: State): State
    requires s.writer.WReunlock?
  {
    s.(mutex := Free, writer := WTail(s.writer.b, s.writer.n))
  }

  /** :267, r.conn has taken `m` more bytes. */
  function Landed(s: State, m: nat, err: bool): State
    requires s.writer.WTail? && s.writer.n + m <= |s.writer.b|
  {
    var WTail(b, n) := s.writer;
    var c := s.net.Cur();
    s.WithCur(c.(sent := c.sent + b[n..][..m])).(writer := WTail(b, n + m), trail := s.trail.(writeFailed := err))
  }

  /** :267-268 */
  function WritesTail(s: State, m: nat, err: bool): State
    requires s.writer.WTail? && s.writer.n <= |s.writer.b| && WriteContract(s.writer.b[s.writer.n..], m, err)
  {
    WriteReturns(Landed(s, m, err), s.writer.b, s.writer.n + m, err)
  }

  /** :273, a write with nothing written before it */
  function WritesDirectly(s: State, n: nat, err: bool): State
    requires s.writer.WDirect? && WriteContract(s.writer.b, n, err)
  {
    assert s.writer.b[0..] == s.writer.b;
    WritesTail(s.(writer := WTail(s.writer.b, 0)), n, err)
  }

  /** ReadFrom is called. */
  function CopyBegins(s: State): State {
    s.(writer := CCheck, copy := Some(Copy(0, 0, |s.ledger.accepted|)),
       trail := s.trail.(shortBefore := s.ledger.shortfall))
  }

  /** :290 */
  function CopyChecks(s: State): State {
    s.(writer := if s.complete then CTail else CPull)
  }

  /** :291 and :281-285: copyOnce pulls a chunk.  On an error it reports no bytes, and drops a chunk
      that came with the error. */
  function CopyPulls(s: State, chunk: seq<byte>, err: bool): State
    requires s.copy.Some?
  {
    var offered, k := Offered(s.ledger, chunk), s.copy.value;
    if !err then s.(writer := WCheck(chunk), ledger := offered)
    else s.(writer := WIdle, ledger := Reported(offered, chunk, 0),
            copy := None, copied := Some(Copy(0, k.earlier + k.count, k.from)))
  }

  /** :297: the socket's own ReadFrom pulls a chunk. */
  function TailPulls(s: State, chunk: seq<byte>, end: bool): State {
    s.(writer := CTailWrite(chunk, end), ledger := Offered(s.ledger, chunk))
  }

  /** :297-299: the socket's own ReadFrom writes the chunk. */
  function TailWrites(s: State, n: nat, err: bool): State
    requires s.writer.CTailWrite? && s.copy.Some? && WriteContract(s.writer.b, n, err)
  {
    var CTailWrite(b, end) := s.writer;
    var c, k := s.net.Cur(), s.copy.value;
    var k' := Some(k.(count := k.count + n));
    s.WithCur(c.(sent := c.sent + b[..n])).(
      ledger := Reported(s.ledger, b, n),
      writer := if err || end then WIdle else CTail,
      copy := if err || end then None else k',
      copied := if err || end then k' else s.copied)
  }

  function WriterStep(s: State, e: WriterEvent): State
    requires WriterEnabled(s, e)
  {
    match e
    case WriteCall(b) => WriteBegins(s, b)
    case WriterCheck => WriterChecks(s)
    case WriterLock => WriterLocks(s)
    case WriterBody(n, err, now) => WritesProvisionally(s, n, err, now)
    case WriterUnlock => WriterUnlocks(s)
    case WriterWake => WriterWakes(s)
    case WriterRelock => WriterRelocks(s)
    case WriterReunlock => WriterReunlocks(s)
    case WriterTail(m, err) => WritesTail(s, m, err)
    case WriterDirect(n, err) => WritesDirectly(s, n, err)
    case ReadFromCall => CopyBegins(s)
    case CopyCheck => CopyChecks(s)
    case CopyPull(chunk, err) => CopyPulls(s, chunk, err)
    case TailPull(chunk, end) => TailPulls(s, chunk, end)
    case TailWrite(n, err) => TailWrites(s, n, err)
  }

  // CloseRead and CloseWrite

  predicate CloserEnabled(s: State, h: Half, e: CloserEvent) {
    match e
    case CloseCall => s.CloserAt(h).CIdle?
    case CloserLock => s.CloserAt(h).CWant? && s.mutex == Free
    case CloserShut => s.CloserAt(h).CLocked?
    case CloserUnlock => s.CloserAt(h).CDone?
  }

  /** :206-208, :303-305 */
  function CloseBegins(s: State, h: Half): State {
    s.(closeFlags := s.closeFlags + {h}).WithCloser(h, CWant)
  }

  /** :209, :306 */
  function CloserLocks(s: State, h: Half): State {
    s.(mutex := Closer(h)).WithCloser(h, CLocked)
  }

  /** :211, :308 */
  function Shuts(s: State, h: Half): State {
    var c := s.net.Cur();
    s.WithCur(c.(shut := c.shut + {h})).WithCloser(h, CDone).(
      log := if s.net.redialed.Some? then s.log.(lateShut := s.log.lateShut + {h}) else s.log)
  }

  function CloserUnlocks(s: State, h: Half): State {
    s.(mutex := Free).WithCloser(h, CIdle)
  }

  function CloserStep(s: State, h: Half, e: CloserEvent): State
    requires CloserEnabled(s, h, e)
  {
    match e
    case CloseCall => CloseBegins(s, h)
    case CloserLock => CloserLocks(s, h)
    case CloserShut => Shuts(s, h)
    case CloserUnlock => CloserUnlocks(s, h)
  }

  /** :331-342: while the retry is possible the socket's deadline is left alone. */
  function SetsReadDeadline(s: State, t: Deadline): State {
    var u := s.(readDeadline := t);
    if s.complete then u.WithCur(s.net.Cur().(readDeadline := t)).(log := s.log.(deadlineSince := t)) else u
  }

  /** :344-349 */
  function SetsWriteDeadline(s: State, t: Deadline): State {
    s.(writeDeadline := t).WithCur(s.net.Cur().(writeDeadline := t)).(
      log := s.log.(lateDeadline := s.log.lateDeadline || s.net.redialed.Some?))
  }

  // The whole machine

  predicate Enabled(s: State, e: Event) {
    match e
    case R(r) => ReaderEnabled(s, r)
    case W(w) => WriterEnabled(s, w)
    case C(h, c) => CloserEnabled(s, h, c)
    case SetReadDeadline(_) => s.mutex == Free
    case SetWriteDeadline(_) => s.mutex == Free
  }

  function Step(s: State, e: Event): State
    requires Enabled(s, e)
  {
    match e
    case R(r) => ReaderStep(s, r)
    case W(w) => WriterStep(s, w)
    case C(h, c) => CloserStep(s, h, c)
    case SetReadDeadline(t) => SetsReadDeadline(s, t)
    case SetWriteDeadline(t) => SetsWriteDeadline(s, t)
  }

  /** Every event of `es` can happen, in this order, from `s`. */
  predicate Executable(s: State, es: seq<Event>)
    decreases |es|
  {
    es == [] || (Enabled(s, es[0]) && Executable(Step(s, es[0]), es[1..]))
  }

  function Exec(s: State, es: seq<Event>): State
    requires Executable(s, es)
    decreases |es|
  {
    if es == [] then s else Exec(Step(s, es[0]), es[1..])
  }
}
