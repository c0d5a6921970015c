/** What every step of the machine in RetryProtocol keeps.  The invariant comes in pieces, one for
    each promise; a piece is stated over the part of the state it is about, so that a step which
    leaves that part alone keeps it for that reason. */
module RetryInvariant {
  import opened Common
  import opened SplitHello
  import opened RetryProtocol

  // Who holds the mutex

  predicate ReaderHolds(pc: ReaderPc) {
    !pc.RIdle? && !pc.RSocket? && !pc.RGot? && !pc.RWantLock?
  }

  predicate WriterHolds(pc: WriterPc) {
    pc.WLocked? || pc.WUnlock? || pc.WReunlock?
  }

  predicate CloserHolds(pc: CloserPc) {
    pc.CLocked? || pc.CDone?
  }

  /** The mutex is owned by exactly the actor whose program counter is inside a critical section. */
  predicate Locks(mutex: Owner, reader: ReaderPc, writer: WriterPc, readCloser: CloserPc, writeCloser: CloserPc) {
    && (mutex == Reader <==> ReaderHolds(reader))
    && (mutex == Writer <==> WriterHolds(writer))
    && (mutex == Closer(ReadHalf) <==> CloserHolds(readCloser))
    && (mutex == Closer(WriteHalf) <==> CloserHolds(writeCloser))
  }

  // How far the switch is

  /** Inside retry, with the new socket in place. */
  predicate Replaying(pc: ReaderPc) {
    pc.RReplayFirst? || pc.RReplaySecond? || pc.RCopyRead? || pc.RCopyWrite? || pc.RDeadlines? || pc.RReread?
  }

  /** At most one retry, at most one publication, and the new socket appears only in the retry. */
  predicate Phase(redialed: bool, abandoned: bool, complete: bool, reader: ReaderPc, log: Switch) {
    && log.publications == (if complete then 1 else 0)
    && log.retries == (if abandoned then 1 else 0)
    && (!abandoned ==> !redialed && log.discarded == [])
    && (abandoned && !complete ==> reader.RDial? || Replaying(reader) || reader.RPublish?)
    && (reader.RDial? ==> abandoned && !redialed)
    && (Replaying(reader) ==> redialed)
    && (reader.RPublish? && !abandoned ==> !reader.err)
    && (reader.RWantLock? || (ReaderHolds(reader) && !reader.RCleanup? && !reader.RUnlock?) ==> !complete)
    && (reader.RCleanup? || reader.RUnlock? ==> complete)
    && (log.truncated ==> redialed && (complete || reader.RPublish?))
  }

  /** The writer has seen that the flag is closed. */
  predicate SawFlag(pc: WriterPc) {
    || pc.WRelock? || pc.WReunlock? || pc.WTail? || pc.WDirect? || pc.CTail? || pc.CTailWrite?
    || (pc.WUnlock? && !pc.attempted)
  }

  predicate WriterPhase(complete: bool, writer: WriterPc, copy: Option<Copy>) {
    && (SawFlag(writer) ==> complete)
    && (writer.CCheck? || writer.CPull? || writer.CTail? || writer.CTailWrite? ==> copy.Some?)
    && (writer.WIdle? ==> copy.None?)
    && match writer
       case WUnlock(b, n, err, attempted) => n <= |b| && (attempted && n < |b| ==> err) && (!attempted ==> n == 0)
       case WParked(b, n) => n <= |b|
       case WRelock(b, n) => n <= |b|
       case WReunlock(b, n) => n <= |b|
       case WTail(b, n) => n <= |b|
       case _ => true
  }

  // Upstream bytes

  function Take(b: seq<byte>, n: nat): seq<byte> {
    if n <= |b| then b[..n] else b
  }

  /** The part of the Write in progress that is already in a socket's log. */
  function InFlight(w: WriterPc): seq<byte> {
    match w
    case WUnlock(b, n, _, _) => Take(b, n)
    case WParked(b, n) => Take(b, n)
    case WRelock(b, n) => Take(b, n)
    case WReunlock(b, n) => Take(b, n)
    case WTail(b, n) => Take(b, n)
    case _ => []
  }

  /** The part of the Write in progress that no call has reported on. */
  function Pending(w: WriterPc): seq<byte> {
    match w
    case WCheck(b) => b
    case WWantLock(b) => b
    case WLocked(b) => b
    case WUnlock(b, _, _, _) => b
    case WParked(b, _) => b
    case WRelock(b, _) => b
    case WReunlock(b, _) => b
    case WTail(b, _) => b
    case WDirect(b) => b
    case CTailWrite(b, _) => b
    case _ => []
  }

  /** Everything accepted so far, together with the logged part of the Write in progress. */
  function Logged(s: State): seq<byte> {
    s.ledger.accepted + InFlight(s.writer)
  }

  /** The bytes a state is about: the logs of the two sockets, what was logged by Write, and what
      the publication remembered. */
  datatype Bytes = Bytes(
    provisional: seq<byte>, redialed: Option<seq<byte>>, hello: seq<byte>, logged: seq<byte>, counted: nat,
    helloAtPublish: seq<byte>, sentAtPublish: seq<byte>, truncated: bool)
  {
    function Cur(): seq<byte> {
      if redialed.Some? then redialed.value else provisional
    }
  }

  function BytesOf(s: State): Bytes {
    Bytes(s.net.provisional.sent, if s.net.redialed.Some? then Some(s.net.redialed.value.sent) else None, s.hello,
          Logged(s), s.stats.bytes, s.log.helloAtPublish, s.log.sentAtPublish, s.log.truncated)
  }

  /** Before the flag closes: `hello` is exactly what was logged, and the new socket holds exactly
      the part of it that has been replayed. */
  predicate UpBefore(v: Bytes, reader: ReaderPc) {
    && v.provisional == v.hello == v.logged
    && v.counted == |v.hello|
    && (v.redialed.Some? ==>
          match reader
          case RReplayFirst(first, second) => v.redialed.value == [] && first + second == v.hello
          case RReplaySecond(second) => v.redialed.value + second == v.hello
          case RPublish(_, _) => v.redialed.value <= v.hello && (!v.truncated ==> v.redialed.value == v.hello)
          case _ => v.redialed.value == v.hello)
  }

  /** After the flag has closed: r.conn holds what it was sent by then (a prefix of `hello`),
      followed by everything logged since. */
  predicate UpAfter(v: Bytes, reader: ReaderPc) {
    && v.sentAtPublish <= v.helloAtPublish <= v.logged
    && v.Cur() == v.sentAtPublish + v.logged[|v.helloAtPublish|..]
    && (!v.truncated ==> v.sentAtPublish == v.helloAtPublish)
    && v.counted == |v.helloAtPublish|
    && v.hello == (if reader.RCleanup? then v.helloAtPublish else [])
  }

  predicate Upstream(v: Bytes, complete: bool, reader: ReaderPc) {
    if complete then UpAfter(v, reader) else UpBefore(v, reader)
  }

  /** Every offered byte is reported written, reported not written, or still in progress. */
  predicate Balanced(ledger: Ledger, pending: seq<byte>) {
    && |ledger.offered| == |ledger.accepted| + ledger.shortfall + |pending|
    && (ledger.shortfall == 0 ==> ledger.offered == ledger.accepted + pending)
  }

  /** ReadFrom: the result variable together with what :291 overwrote is what the call has moved. */
  predicate Tallied(copy: Option<Copy>, accepted: nat) {
    copy.Some? ==> copy.value.count + copy.value.earlier + copy.value.from == accepted
  }

  // Downstream bytes

  /** Data that the Read in progress has taken from r.conn and will return. */
  function InHand(reader: ReaderPc): seq<byte> {
    match reader
    case RGot(data, _) => data
    case RWantLock(data, _) => data
    case RLocked(data, _) => data
    case RPublish(data, _) => data
    case RCleanup(data, _) => data
    case RUnlock(data, _) => data
    case _ => []
  }

  /** r.conn has been read exactly as far as Read has returned, apart from data that came with the
      failed first read when no new socket replaced it. */
  predicate Downstream(net: Net, complete: bool, inHand: seq<byte>, delivered: seq<byte>, discarded: seq<byte>) {
    && (!complete ==> delivered == [])
    && net.Cur().received == (if net.redialed.Some? then [] else discarded) + delivered + inHand
  }

  // Half-close

  /** The retry has yet to copy the flag of this half to the new socket. */
  predicate CopyDue(reader: ReaderPc, h: Half) {
    reader.RReplayFirst? || reader.RReplaySecond? || reader.RCopyRead? || (reader.RCopyWrite? && h == WriteHalf)
  }

  predicate CloserDue(pc: CloserPc) {
    pc.CWant? || pc.CLocked?
  }

  /** A half whose flag is closed is shut on r.conn, unless someone is about to shut it there or the
      replay failed before the flags were copied.  `shut` and `closed` are those of r.conn. */
  predicate HalfClosed(
    h: Half, redialed: bool, shut: set<Half>, closed: bool, flags: set<Half>, reader: ReaderPc, closer: CloserPc,
    truncated: bool, lateShut: set<Half>)
  {
    && (closer != CIdle ==> h in flags)
    && (closer.CDone? ==> h in shut)
    && (h in flags && !truncated && !CloserDue(closer) && !CopyDue(reader, h) ==> h in shut || closed)
    && (h in shut ==> h in flags)
    && (h in lateShut ==> redialed && h in shut)
    && (redialed ==> !closed)
    && (redialed && CopyDue(reader, h) ==> h !in shut)
    && (truncated ==> (h in shut <==> h in lateShut))
  }

  // Deadlines

  /** The caller's write deadline is in force on r.conn, unless the retry is about to copy it or the
      replay failed; then a fresh r.conn has none, until SetWriteDeadline is called. */
  predicate WriteDeadline(onSocket: Deadline, callers: Deadline, redialed: bool, reader: ReaderPc, truncated: bool,
                          late: bool) {
    && (!truncated && (Replaying(reader) ==> reader.RReread?) ==> onSocket == callers)
    && (redialed && Replaying(reader) && !reader.RReread? ==> onSocket == None)
    && (truncated && !late ==> onSocket == None)
    && (late ==> redialed && !Replaying(reader) && onSocket == callers)
  }

  /** A provisional socket that has been written to has a read deadline. */
  predicate Watched(onProvisional: Deadline, chunks: nat, complete: bool, writer: WriterPc) {
    && (chunks > 0 && !complete ==> onProvisional.Some?)
    && (writer.WParked? || (writer.WUnlock? && writer.attempted) ==> chunks > 0)
  }

  /** After the switch, the read deadline in force is the one set since; that is the caller's last one. */
  predicate ReadDeadline(onSocket: Deadline, since: Deadline, callers: Deadline, complete: bool, reader: ReaderPc) {
    && (complete && !reader.RCleanup? ==> onSocket == since)
    && (since.Some? ==> complete && since == callers)
  }

  // The whole invariant

  predicate InvLocks(s: State) {
    Locks(s.mutex, s.reader, s.writer, s.readCloser, s.writeCloser)
  }

  predicate InvPhase(s: State) {
    && Phase(s.net.redialed.Some?, s.net.provisional.closed, s.complete, s.reader, s.log)
    && WriterPhase(s.complete, s.writer, s.copy)
  }

  predicate InvBytes(s: State) {
    && Upstream(BytesOf(s), s.complete, s.reader)
    && Balanced(s.ledger, Pending(s.writer))
    && Tallied(s.copy, |s.ledger.accepted|)
    && Downstream(s.net, s.complete, InHand(s.reader), s.log.delivered, s.log.discarded)
  }

  predicate InvHalf(s: State, h: Half) {
    var c := s.net.Cur();
    HalfClosed(h, s.net.redialed.Some?, c.shut, c.closed, s.closeFlags, s.reader, s.CloserAt(h), s.log.truncated,
               s.log.lateShut)
  }

  predicate InvDeadlines(s: State) {
    && WriteDeadline(s.net.Cur().writeDeadline, s.writeDeadline, s.net.redialed.Some?, s.reader, s.log.truncated,
                     s.log.lateDeadline)
    && Watched(s.net.provisional.readDeadline, s.stats.chunks, s.complete, s.writer)
    && ReadDeadline(s.net.Cur().readDeadline, s.log.deadlineSince, s.readDeadline, s.complete, s.reader)
  }

  predicate Inv(s: State) {
    && InvLocks(s)
    && InvPhase(s)
    && InvBytes(s)
    && InvHalf(s, ReadHalf)
    && InvHalf(s, WriteHalf)
    && InvDeadlines(s)
  }

  lemma InitialInv(timeout: int)
    ensures Inv(Initial(timeout))
  {
  }

  lemma ReadCallKeeps(s: State)
    requires Inv(s) && s.reader.RIdle?
    ensures Inv(s.(reader := RSocket))
  {
  }

  lemma SocketReturnsDown(s: State, data: seq<byte>, err: bool)
    requires InvPhase(s) && InvBytes(s) && s.reader.RSocket?
    ensures
      var t := SocketReturns(s, data, err);
      Downstream(t.net, t.complete, InHand(t.reader), t.log.delivered, t.log.discarded)
  {
    assert InHand(SocketReturns(s, data, err).reader) == data;
  }

  lemma SocketReturnsBytes(s: State, data: seq<byte>, err: bool)
    requires InvPhase(s) && InvBytes(s) && s.reader.RSocket?
    ensures InvBytes(SocketReturns(s, data, err))
  {
    SocketReturnsDown(s, data, err);
    assert BytesOf(SocketReturns(s, data, err)) == BytesOf(s);
  }

  lemma SocketReturnsHalf(s: State, data: seq<byte>, err: bool, h: Half)
    requires InvHalf(s, h) && s.reader.RSocket?
    ensures InvHalf(SocketReturns(s, data, err), h)
  {
  }

  lemma SocketReturnsDeadlines(s: State, data: seq<byte>, err: bool)
    requires InvDeadlines(s) && s.reader.RSocket?
    ensures InvDeadlines(SocketReturns(s, data, err))
  {
  }

  lemma SocketReturnsPhase(s: State, data: seq<byte>, err: bool)
    requires InvLocks(s) && InvPhase(s) && s.reader.RSocket?
    ensures InvLocks(SocketReturns(s, data, err)) && InvPhase(SocketReturns(s, data, err))
  {
  }

  lemma SocketReturnsKeeps(s: State, data: seq<byte>, err: bool)
    requires Inv(s) && s.reader.RSocket?
    ensures Inv(SocketReturns(s, data, err))
  {
    SocketReturnsBytes(s, data, err);
    SocketReturnsHalf(s, data, err, ReadHalf);
    SocketReturnsHalf(s, data, err, WriteHalf);
    SocketReturnsDeadlines(s, data, err);
    SocketReturnsPhase(s, data, err);
  }

  lemma FlagCheckedBytes(s: State)
    requires InvBytes(s) && s.reader.RGot?
    ensures InvBytes(FlagChecked(s))
  {
    var t := FlagChecked(s);
    assert BytesOf(t) == BytesOf(s);
  }

  lemma FlagCheckedKeeps(s: State)
    requires Inv(s) && s.reader.RGot?
    ensures Inv(FlagChecked(s))
  {
    FlagCheckedBytes(s);
  }

  lemma ReaderLocksKeeps(s: State)
    requires Inv(s) && s.reader.RWantLock? && s.mutex == Free
    ensures Inv(ReaderLocks(s))
  {
  }

  lemma DecidesBytes(s: State, timedOut: Option<bool>)
    requires InvPhase(s) && InvBytes(s) && s.reader.RLocked?
    ensures InvBytes(Decides(s, timedOut))
  {
    assert BytesOf(Decides(s, timedOut)) == BytesOf(s);
  }

  lemma DecidesKeeps(s: State, timedOut: Option<bool>)
    requires Inv(s) && s.reader.RLocked?
    ensures Inv(Decides(s, timedOut))
  {
    DecidesBytes(s, timedOut);
  }

  lemma DialFailsKeeps(s: State)
    requires Inv(s) && s.reader.RDial?
    ensures Inv(DialFails(s))
  {
  }

  lemma DialsKeeps(s: State, r: nat)
    requires Inv(s) && s.reader.RDial? && SplitChoice(r)
    ensures Inv(Dials(s, r))
  {
  }

  lemma ReplaysFirstKeeps(s: State, n: nat, err: bool)
    requires Inv(s) && s.reader.RReplayFirst? && WriteContract(s.reader.first, n, err)
    ensures Inv(Replays(s, s.reader.first, n, err, RReplaySecond(s.reader.second)))
  {
  }

  lemma ReplaysSecondKeeps(s: State, n: nat, err: bool)
    requires Inv(s) && s.reader.RReplaySecond? && WriteContract(s.reader.second, n, err)
    ensures Inv(Replays(s, s.reader.second, n, err, RCopyRead))
  {
  }

  lemma CopiesCloseBytes(s: State, h: Half, next: ReaderPc)
    requires InvPhase(s) && InvBytes(s)
    requires (s.reader.RCopyRead? && next.RCopyWrite?) || (s.reader.RCopyWrite? && next.RDeadlines?)
    ensures InvBytes(CopiesClose(s, h, next))
  {
    assert BytesOf(CopiesClose(s, h, next)) == BytesOf(s);
  }

  lemma CopiesReadCloseKeeps(s: State)
    requires Inv(s) && s.reader.RCopyRead?
    ensures Inv(CopiesClose(s, ReadHalf, RCopyWrite))
  {
    CopiesCloseBytes(s, ReadHalf, RCopyWrite);
  }

  lemma CopiesWriteCloseKeeps(s: State)
    requires Inv(s) && s.reader.RCopyWrite?
    ensures Inv(CopiesClose(s, WriteHalf, RDeadlines))
  {
    CopiesCloseBytes(s, WriteHalf, RDeadlines);
  }

  lemma CopiesDeadlinesKeeps(s: State)
    requires Inv(s) && s.reader.RDeadlines?
    ensures Inv(CopiesDeadlines(s))
  {
  }

  lemma RereadsKeeps(s: State, data: seq<byte>, err: bool)
    requires Inv(s) && s.reader.RReread?
    ensures Inv(Rereads(s, data, err))
  {
  }

  lemma PublishesKeeps(s: State)
    requires Inv(s) && s.reader.RPublish?
    ensures Inv(Publishes(s))
  {
  }

  lemma CleansUpKeeps(s: State)
    requires Inv(s) && s.reader.RCleanup?
    ensures Inv(CleansUp(s))
  {
  }

  lemma ReaderUnlocksKeeps(s: State)
    requires Inv(s) && s.reader.RUnlock?
    ensures Inv(ReaderUnlocks(s))
  {
  }

  lemma WriteBeginsKeeps(s: State, b: seq<byte>)
    requires Inv(s) && s.writer.WIdle?
    ensures Inv(WriteBegins(s, b))
  {
  }

  lemma WriterChecksKeeps(s: State)
    requires Inv(s) && s.writer.WCheck?
    ensures Inv(WriterChecks(s))
  {
  }

  lemma WriterLocksKeeps(s: State)
    requires Inv(s) && s.writer.WWantLock? && s.mutex == Free
    ensures Inv(WriterLocks(s))
  {
  }

  lemma WritesProvisionallyBytes(s: State, n: nat, err: bool, now: int)
    requires InvLocks(s) && InvPhase(s) && InvBytes(s) && s.writer.WLocked? && WriteContract(s.writer.b, n, err)
    ensures InvBytes(WritesProvisionally(s, n, err, now))
  {
    var t := WritesProvisionally(s, n, err, now);
    assert Logged(t) == Logged(s) + (if s.complete then [] else s.writer.b[..n]);
    assert s.complete ==> BytesOf(t) == BytesOf(s);
  }

  lemma WritesProvisionallyKeeps(s: State, n: nat, err: bool, now: int)
    requires Inv(s) && s.writer.WLocked? && WriteContract(s.writer.b, n, err)
    ensures Inv(WritesProvisionally(s, n, err, now))
  {
    WritesProvisionallyBytes(s, n, err, now);
  }

  // Writes.  The lemmas on Bytes and Ledger say what a write adds; the rest of the state hardly moves.

  /** `x` is written to r.conn and logged. */
  function Grown(v: Bytes, x: seq<byte>): Bytes {
    var w := if v.redialed.Some? then v.(redialed := Some(v.redialed.value + x))
             else v.(provisional := v.provisional + x);
    w.(logged := v.logged + x)
  }

  lemma SuffixGrows(sent: seq<byte>, logged: seq<byte>, h: nat, x: seq<byte>)
    requires h <= |logged|
    ensures sent + logged[h..] + x == sent + (logged + x)[h..]
  {
    assert (logged + x)[h..] == logged[h..] + x;
  }

  lemma GrownKeeps(v: Bytes, x: seq<byte>, reader: ReaderPc)
    requires UpAfter(v, reader)
    ensures UpAfter(Grown(v, x), reader)
  {
    var w := Grown(v, x);
    SuffixGrows(v.sentAtPublish, v.logged, |v.helloAtPublish|, x);
    assert w.Cur() == v.Cur() + x;
    assert w.logged == v.logged + x && v.logged <= w.logged;
  }

  lemma ReportBalances(ledger: Ledger, b: seq<byte>, n: nat)
    requires Balanced(ledger, b) && n <= |b|
    ensures Balanced(Reported(ledger, b, n), [])
  {
    assert n == |b| ==> b[..n] == b;
  }

  lemma WriteReturnsBytes(s: State, b: seq<byte>, n: nat, err: bool)
    requires InvBytes(s) && n <= |b| && (s.writer == WParked(b, n) || s.writer == WTail(b, n))
    ensures InvBytes(WriteReturns(s, b, n, err))
  {
    var t := WriteReturns(s, b, n, err);
    assert BytesOf(t) == BytesOf(s);
    ReportBalances(s.ledger, b, n);
  }

  /** Reporting moves the logged part of a Write from "in flight" to "accepted". */
  lemma WriteReturnsKeeps(s: State, b: seq<byte>, n: nat, err: bool)
    requires Inv(s) && (s.writer == WParked(b, n) || s.writer == WTail(b, n))
    ensures Inv(WriteReturns(s, b, n, err))
  {
    WriteReturnsBytes(s, b, n, err);
  }

  lemma UnlockToParked(s: State)
    requires Inv(s) && s.writer.WUnlock? && s.writer.attempted
    ensures Inv(s.(mutex := Free, writer := WParked(s.writer.b, s.writer.n)))
  {
    assert Logged(s.(mutex := Free, writer := WParked(s.writer.b, s.writer.n))) == Logged(s);
  }

  lemma UnlockToDirect(s: State)
    requires Inv(s) && s.writer.WUnlock? && !s.writer.attempted
    ensures Inv(s.(mutex := Free, writer := WDirect(s.writer.b)))
  {
    assert Logged(s.(mutex := Free, writer := WDirect(s.writer.b))) == Logged(s);
  }

  lemma WriterUnlocksKeeps(s: State)
    requires Inv(s) && s.writer.WUnlock?
    ensures Inv(WriterUnlocks(s))
  {
    var WUnlock(b, n, err, attempted) := s.writer;
    if attempted {
      UnlockToParked(s);
      var u := s.(mutex := Free, writer := WParked(b, n));
      if !err {
        WriteReturnsKeeps(u, b, n, err);
      }
    } else {
      UnlockToDirect(s);
    }
  }

  lemma WriterWakesKeeps(s: State)
    requires Inv(s) && s.writer.WParked? && s.complete
    ensures Inv(WriterWakes(s))
  {
  }

  lemma WriterRelocksKeeps(s: State)
    requires Inv(s) && s.writer.WRelock? && s.mutex == Free
    ensures Inv(WriterRelocks(s))
  {
  }

  lemma WriterReunlocksKeeps(s: State)
    requires Inv(s) && s.writer.WReunlock?
    ensures Inv(WriterReunlocks(s))
  {
  }

  lemma LandedGrows(s: State, m: nat, err: bool)
    requires s.writer.WTail? && s.writer.n + m <= |s.writer.b|
    ensures BytesOf(Landed(s, m, err)) == Grown(BytesOf(s), s.writer.b[s.writer.n..][..m])
  {
    var WTail(b, n) := s.writer;
    var x := b[n..][..m];
    assert b[..n + m] == b[..n] + x;
    assert Logged(Landed(s, m, err)) == Logged(s) + x;
  }

  lemma LandedBytes(s: State, m: nat, err: bool)
    requires InvPhase(s) && InvBytes(s) && s.writer.WTail? && s.writer.n + m <= |s.writer.b|
    ensures InvBytes(Landed(s, m, err))
  {
    LandedGrows(s, m, err);
    GrownKeeps(BytesOf(s), s.writer.b[s.writer.n..][..m], s.reader);
  }

  lemma LandedKeeps(s: State, m: nat, err: bool)
    requires Inv(s) && s.writer.WTail? && s.writer.n + m <= |s.writer.b|
    ensures Inv(Landed(s, m, err))
    ensures Landed(s, m, err).writer == WTail(s.writer.b, s.writer.n + m)
  {
    LandedBytes(s, m, err);
  }

  lemma TailLands(s: State, m: nat, err: bool) returns (t: State)
    requires Inv(s) && s.writer.WTail? && m <= |s.writer.b[s.writer.n..]|
    ensures s.writer.n + m <= |s.writer.b| && t == Landed(s, m, err)
    ensures Inv(t) && t.writer == WTail(s.writer.b, s.writer.n + m)
  {
    assert InvPhase(s);
    LandedKeeps(s, m, err);
    t := Landed(s, m, err);
  }

  lemma TailReturns(t: State, b: seq<byte>, k: nat, err: bool) returns (u: State)
    requires Inv(t) && t.writer == WTail(b, k)
    ensures k <= |b| && u == WriteReturns(t, b, k, err) && Inv(u)
  {
    assert InvPhase(t);
    WriteReturnsKeeps(t, b, k, err);
    u := WriteReturns(t, b, k, err);
  }

  lemma TailIsLanded(s: State, m: nat, err: bool, t: State, u: State)
    requires s.writer.WTail? && s.writer.n + m <= |s.writer.b| && WriteContract(s.writer.b[s.writer.n..], m, err)
    requires t == Landed(s, m, err) && u == WriteReturns(t, s.writer.b, s.writer.n + m, err)
    ensures u == WritesTail(s, m, err)
  {
  }

  lemma WritesTailKeeps(s: State, m: nat, err: bool)
    requires Inv(s) && s.writer.WTail? && WriteContract(s.writer.b[s.writer.n..], m, err)
    ensures Inv(WritesTail(s, m, err))
  {
    var t := TailLands(s, m, err);
    var u := TailReturns(t, s.writer.b, s.writer.n + m, err);
    TailIsLanded(s, m, err, t, u);
  }

  lemma DirectIsTail(s: State)
    requires Inv(s) && s.writer.WDirect?
    ensures Inv(s.(writer := WTail(s.writer.b, 0)))
  {
    assert Logged(s.(writer := WTail(s.writer.b, 0))) == Logged(s);
  }

  lemma WritesDirectlyKeeps(s: State, n: nat, err: bool)
    requires Inv(s) && s.writer.WDirect? && WriteContract(s.writer.b, n, err)
    ensures Inv(WritesDirectly(s, n, err))
  {
    var u := s.(writer := WTail(s.writer.b, 0));
    assert s.writer.b[0..] == s.writer.b;
    DirectIsTail(s);
    WritesTailKeeps(u, n, err);
  }

  lemma CopyBeginsKeeps(s: State)
    requires Inv(s) && s.writer.WIdle?
    ensures Inv(CopyBegins(s))
  {
  }

  lemma CopyChecksKeeps(s: State)
    requires Inv(s) && s.writer.CCheck?
    ensures Inv(CopyChecks(s))
  {
  }

  lemma CopyPullsBytes(s: State, chunk: seq<byte>, err: bool)
    requires Inv(s) && s.writer.CPull?
    ensures InvBytes(CopyPulls(s, chunk, err))
  {
    var t := CopyPulls(s, chunk, err);
    assert Logged(t) == Logged(s);
    assert BytesOf(t) == BytesOf(s);
  }

  lemma CopyPullsKeeps(s: State, chunk: seq<byte>, err: bool)
    requires Inv(s) && s.writer.CPull?
    ensures Inv(CopyPulls(s, chunk, err))
  {
    CopyPullsBytes(s, chunk, err);
  }

  lemma TailPullsKeeps(s: State, chunk: seq<byte>, end: bool)
    requires Inv(s) && s.writer.CTail?
    ensures Inv(TailPulls(s, chunk, end))
  {
  }

  lemma TailWritesKeeps(s: State, n: nat, err: bool)
    requires Inv(s) && s.writer.CTailWrite? && WriteContract(s.writer.b, n, err)
    ensures Inv(TailWrites(s, n, err))
  {
    TailWritesKeepsBytes(s, n, err);
  }

  lemma TailWritesKeepsBytes(s: State, n: nat, err: bool)
    requires Inv(s) && s.writer.CTailWrite? && WriteContract(s.writer.b, n, err)
    ensures InvBytes(TailWrites(s, n, err))
  {
    var b := s.writer.b;
    var t := TailWrites(s, n, err);
    assert Logged(t) == Logged(s) + b[..n];
    assert BytesOf(t) == Grown(BytesOf(s), b[..n]);
    GrownKeeps(BytesOf(s), b[..n], s.reader);
    ReportBalances(s.ledger, b, n);
  }

  lemma CloseBeginsKeeps(s: State, h: Half)
    requires Inv(s) && s.CloserAt(h).CIdle?
    ensures Inv(CloseBegins(s, h))
  {
  }

  lemma CloserLocksKeeps(s: State, h: Half)
    requires Inv(s) && s.CloserAt(h).CWant? && s.mutex == Free
    ensures Inv(CloserLocks(s, h))
  {
  }

  lemma ShutsKeeps(s: State, h: Half)
    requires Inv(s) && s.CloserAt(h).CLocked?
    ensures Inv(Shuts(s, h))
  {
    match h
    case ReadHalf =>
    case WriteHalf =>
  }

  lemma CloserUnlocksKeeps(s: State, h: Half)
    requires Inv(s) && s.CloserAt(h).CDone?
    ensures Inv(CloserUnlocks(s, h))
  {
  }

  lemma SetsReadDeadlineKeeps(s: State, t: Deadline)
    requires Inv(s) && s.mutex == Free
    ensures Inv(SetsReadDeadline(s, t))
  {
  }

  lemma SetsWriteDeadlineKeeps(s: State, t: Deadline)
    requires Inv(s) && s.mutex == Free
    ensures Inv(SetsWriteDeadline(s, t))
  {
  }

}
