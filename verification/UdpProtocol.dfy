/** intra/udp.go as a state machine.  A socket's fetch goroutine, the calls of Connect, ReceiveTo and
    Close, and the goroutines of doDoh interleave in any way; a step is a critical section of the
    handler's lock, one call on a socket, or one update of a tracker's counters.  The network, the DNS
    transport and the clock choose how steps end. */
module UdpProtocol {
  import opened Common

  type ConnId = nat  // a core.UDPConn

  /** Where fetchUDPInput is.  `expiry` is the log entry of the read that timed out, if one did. */
  datatype FetchPc =
    | NotStarted
    | Arming
    | Reading
    | Counting(n: nat)
    | Delivering
    | Exiting(expiry: Option<nat>)
    | Finished

  /** A tracker and its socket. */
  datatype Sock = Sock(
    conn: ConnId, open: bool, deadline: Option<int>, upload: nat, download: nat, fetch: FetchPc)

  /** A call of ReceiveTo or Close, or a doDoh, that is under way. */
  datatype Call =
    | Received(sock: nat, n: nat, dns: bool)
    | Sending(sock: nat, n: nat)
    | Resolving(sock: nat)
    | Closing(conn: ConnId, closer: Asker)

  /** Who runs Close: a caller, the doDoh of a socket, or its fetch goroutine.  `answer` is the log entry
      of the DNS answer that doDoh had. */
  datatype Closer = Caller | Doh(sock: nat, answer: nat) | Fetch(sock: nat, expiry: Option<nat>)

  /** Whose Close takes its place among the calls; a fetch goroutine closes as it exits. */
  type Asker = c: Closer | !c.Fetch? witness Caller

  /** What happened, in order. */
  datatype Entry =
    | Touched(id: nat, at: int)    // the deadline was set
    | Up(id: nat, n: nat)          // non-DNS upload was counted
    | Down(id: nat, n: nat)        // download was counted
    | Expired(id: nat, at: int)    // a read timed out
    | Answered(id: nat)            // doDoh had its answer
    | Removed(id: nat, at: int, upload: nat, download: nat, closer: Closer)  // closed, and reported

  datatype State = State(
    timeout: int,
    now: int,
    udpConns: map<ConnId, nat>,
    socks: seq<Sock>,       // every socket opened so far
    calls: map<nat, Call>,
    log: seq<Entry>,
    displaced: set<nat>)    // sockets whose place in the table was taken by another one

  datatype Event =
    | Tick(passed: nat)
    | Open(conn: ConnId)
    | Insert(id: nat)
    | Arm(id: nat)
    | ReadOk(id: nat, size: nat)
    | Expire(id: nat)
    | ReadFails(id: nat)
    | Count(id: nat)
    | Deliver(id: nat, ok: bool)
    | FetchClose(id: nat)
    | Receive(call: nat, to: ConnId, size: nat, dns: bool)
    | Touch(call: nat)
    | Send(call: nat)
    | Resolved(call: nat)
    | CloseCall(call: nat, to: ConnId)
    | CloseBody(call: nat)

  function Initial(timeout: int, now: int): State {
    State(timeout, now, map[], [], map[], [], {})
  }

  // Connect

  function Opens(s: State, conn: ConnId): State {
    s.(socks := s.socks + [Sock(conn, true, None, 0, 0, NotStarted)])
  }

  /** The table takes the new tracker, whatever it held before, and the goroutine starts (:123-126). */
  function Inserts(s: State, id: nat): State
    requires id < |s.socks|
  {
    var conn := s.socks[id].conn;
    s.(udpConns := s.udpConns[conn := id],
    socks := s.socks[id := s.socks[id].(fetch := Arming)],
    displaced := if conn in s.udpConns then s.displaced + {s.udpConns[conn]} else s.displaced)
  }

  // fetchUDPInput

  function Goes(s: State, id: nat, pc: FetchPc): State
    requires id < |s.socks|
  {
    s.(socks := s.socks[id := s.socks[id].(fetch := pc)])
  }

  /** SetDeadline(time.Now().Add(h.timeout)) */
  function Touches(s: State, id: nat): State
    requires id < |s.socks|
  {
    s.(socks := s.socks[id := s.socks[id].(deadline := Some(s.now + s.timeout))], log := s.log + [Touched(id, s.now)])
  }

  function Expires(s: State, id: nat): State
    requires id < |s.socks|
  {
    var t := Goes(s, id, Exiting(Some(|s.log|)));
    t.(log := s.log + [Expired(id, s.now)])
  }

  function Counts(s: State, id: nat): State
    requires id < |s.socks| && s.socks[id].fetch.Counting?
  {
    var k := s.socks[id];
    s.(socks := s.socks[id := k.(download := k.download + k.fetch.n, fetch := Delivering)],
    log := s.log + [Down(id, k.fetch.n)])
  }

  // ReceiveTo

  function Uploads(s: State, id: nat, n: nat): State
    requires id < |s.socks|
  {
    var k := s.socks[id];
    s.(socks := s.socks[id := k.(upload := k.upload + n)], log := s.log + [Up(id, n)])
  }

  // Close

  /** The critical section of Close (:179-188), for whatever tracker the table holds. */
  function Closes(s: State, conn: ConnId, closer: Closer): State
    requires conn in s.udpConns ==> s.udpConns[conn] < |s.socks|
  {
    if conn !in s.udpConns then s
    else
      var id := s.udpConns[conn];
      var k := s.socks[id];
      s.(udpConns := s.udpConns - {conn},
      socks := s.socks[id := k.(open := false)],
      log := s.log + [Removed(id, s.now, k.upload, k.download, closer)])
  }

  // Steps

  predicate Live(s: State, id: nat) {
    id < |s.socks|
  }

  predicate Refers(s: State, call: nat) {
    call in s.calls && !s.calls[call].Closing? && s.calls[call].sock < |s.socks|
  }

  predicate TableOk(s: State) {
    forall c :: c in s.udpConns ==> s.udpConns[c] < |s.socks| && s.socks[s.udpConns[c]].conn == c
  }

  predicate Enabled(s: State, e: Event) {
    TableOk(s) &&
    match e
    case Tick(_) => true
    case Open(_) => true
    case Insert(id) => Live(s, id) && s.socks[id].fetch.NotStarted?
    case Arm(id) => Live(s, id) && s.socks[id].fetch.Arming?
    case ReadOk(id, _) => Live(s, id) && s.socks[id].fetch.Reading? && s.socks[id].open
    case Expire(id) =>
      // A read times out only if the deadline has passed.
      && Live(s, id) && s.socks[id].fetch.Reading? && s.socks[id].open
      && s.socks[id].deadline.Some? && s.socks[id].deadline.value <= s.now
    case ReadFails(id) => Live(s, id) && s.socks[id].fetch.Reading?
    case Count(id) => Live(s, id) && s.socks[id].fetch.Counting?
    case Deliver(id, _) => Live(s, id) && s.socks[id].fetch.Delivering?
    case FetchClose(id) => Live(s, id) && s.socks[id].fetch.Exiting?
    case Receive(call, _, _, _) => call !in s.calls
    case Touch(call) => Refers(s, call) && s.calls[call].Received?
    case Send(call) => Refers(s, call) && s.calls[call].Sending?
    case Resolved(call) => Refers(s, call) && s.calls[call].Resolving?
    case CloseCall(call, _) => call !in s.calls
    case CloseBody(call) => call in s.calls && s.calls[call].Closing?
  }

  /** ReceiveTo looks the connection up (:150-157); an unknown one is an error, and nothing happens. */
  function Receives(s: State, call: nat, conn: ConnId, n: nat, dns: bool): State {
    if conn !in s.udpConns then s else s.(calls := s.calls[call := Received(s.udpConns[conn], n, dns)])
  }

  /** ReceiveTo sets the deadline, and goes on to send, or to start doDoh (:159-165). */
  function CallTouches(s: State, call: nat): State
    requires Refers(s, call) && s.calls[call].Received?
  {
    var Received(id, n, dns) := s.calls[call];
    Touches(s, id).(calls := s.calls[call := if dns then Resolving(id) else Sending(id, n)])
  }

  /** ReceiveTo counts the bytes, and writes them to the socket (:167-168). */
  function CallSends(s: State, call: nat): State
    requires Refers(s, call) && s.calls[call].Sending?
  {
    var Sending(id, n) := s.calls[call];
    Uploads(s, id, n).(calls := s.calls - {call})
  }

  /** doDoh has its answer: a socket that has seen nothing but DNS is to be closed (:143-146). */
  function CallResolves(s: State, call: nat): State
    requires Refers(s, call) && s.calls[call].Resolving?
  {
    var id := s.calls[call].sock;
    var k := s.socks[id];
    s.(calls := if k.upload == 0 && k.download == 0 then s.calls[call := Closing(k.conn, Doh(id, |s.log|))]
                else s.calls - {call},
    log := s.log + [Answered(id)])
  }

  function Step(s: State, e: Event): State
    requires Enabled(s, e)
  {
    match e
    case Tick(passed) => s.(now := s.now + passed)
    case Open(conn) => Opens(s, conn)
    case Insert(id) => Inserts(s, id)
    case Arm(id) => Goes(Touches(s, id), id, Reading)
    case ReadOk(id, n) => Goes(s, id, Counting(n))
    case Expire(id) => Expires(s, id)
    case ReadFails(id) => Goes(s, id, Exiting(None))
    case Count(id) => Counts(s, id)
    case Deliver(id, ok) => Goes(s, id, if ok then Arming else Exiting(None))
    case FetchClose(id) =>
      Goes(Closes(s, s.socks[id].conn, Fetch(id, s.socks[id].fetch.expiry)), id, Finished)
    case Receive(call, conn, n, dns) => Receives(s, call, conn, n, dns)
    case Touch(call) => CallTouches(s, call)
    case Send(call) => CallSends(s, call)
    case Resolved(call) => CallResolves(s, call)
    case CloseCall(call, conn) => s.(calls := s.calls[call := Closing(conn, Caller)])
    case CloseBody(call) => Closes(s, s.calls[call].conn, s.calls[call].closer).(calls := s.calls - {call})
  }

  predicate Executable(s: State, es: seq<Event>)
    decreases |es|
  {
    es == [] || (Enabled(s, es[0]) && Executable(Step(s, es[0]), es[1..]))
  }

  function Exec(s: State, es: seq<Event>): State
    requires Executable(s, es)
    decreases |es|
  {
    if es == [] then s else Exec(Step(s, es[0]), es[1..])
  }

  // What the log says

  function Uploaded(log: seq<Entry>, id: nat): nat {
    if log == [] then 0
    else
      var last := log[|log| - 1];
      Uploaded(log[..|log| - 1], id) + (if last.Up? && last.id == id then last.n else 0)
  }

  function Downloaded(log: seq<Entry>, id: nat): nat {
    if log == [] then 0
    else
      var last := log[|log| - 1];
      Downloaded(log[..|log| - 1], id) + (if last.Down? && last.id == id then last.n else 0)
  }

  /** How often the socket was closed and reported. */
  function Removals(log: seq<Entry>, id: nat): nat {
    if log == [] then 0
    else
      var last := log[|log| - 1];
      Removals(log[..|log| - 1], id) + (if last.Removed? && last.id == id then 1 else 0)
  }
}
