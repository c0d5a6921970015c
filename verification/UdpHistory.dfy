/** The UDP handler against its history.  Whom a connection reaches, what has been counted for a socket, until
    when it may live and which calls are under way are read off the calls, the datagrams and the errors of
    the run, without any of the handler's state; and in every run the handler agrees. */
module UdpHistory {
  import opened Common
  import opened UdpProtocol
  import opened UdpTheorems

  // Reading a run

  /** What a call was asked to do: to send or to resolve a packet, for the socket that the connection had
      then, if any, or to close a connection. */
  datatype Request =
    | Packet(to: ConnId, holder: Option<nat>, size: nat, dns: bool)
    | Close(to: ConnId)

  /** The connection of each socket. */
  function Opened(es: seq<Event>): seq<ConnId> {
    if es == [] then []
    else
      var (past, e) := (es[..|es| - 1], es[|es| - 1]);
      Opened(past) + (if e.Open? then [e.conn] else [])
  }

  function ConnOf(es: seq<Event>, id: nat): Option<ConnId> {
    if id < |Opened(es)| then Some(Opened(es)[id]) else None
  }

  /** The socket that was connected last for the connection, if it has not been closed since. */
  function Holder(es: seq<Event>, conn: ConnId): Option<nat>
    decreases |es|, 0
  {
    if es == [] then None
    else
      var (past, e) := (es[..|es| - 1], es[|es| - 1]);
      if e.Insert? && ConnOf(past, e.id) == Some(conn) then Some(e.id)
      else if ClosedBy(past, e) == Some(conn) then None
      else Holder(past, conn)
  }

  /** The last request that was made under this call number. */
  function Latest(es: seq<Event>, call: nat): Option<Request>
    decreases |es|, 0
  {
    if es == [] then None
    else
      var (past, e) := (es[..|es| - 1], es[|es| - 1]);
      if e.Receive? && e.call == call then Some(Packet(e.to, Holder(past, e.to), e.size, e.dns))
      else if e.CloseCall? && e.call == call then Some(Close(e.to))
      else Latest(past, call)
  }

  /** The connection that the next event closes: that of an exiting goroutine, or the one that the closing
      call names. */
  function ClosedBy(es: seq<Event>, e: Event): Option<ConnId>
    decreases |es|, 1
  {
    match e
    case FetchClose(id) => ConnOf(es, id)
    case CloseBody(call) =>
      var request := Latest(es, call);
      if request.Some? then Some(request.value.to) else None
    case _ => None
  }

  /** The socket that the packet of a call is for. */
  function Target(es: seq<Event>, call: nat): Option<nat> {
    var request := Latest(es, call);
    if request.Some? && request.value.Packet? then request.value.holder else None
  }

  /** The socket was closed: its connection was, while the socket was what it reached. */
  predicate Shut(es: seq<Event>, id: nat) {
    es != [] &&
    var (past, e) := (es[..|es| - 1], es[|es| - 1]);
    Shut(past, id) || (ClosedBy(past, e).Some? && Holder(past, ClosedBy(past, e).value) == Some(id))
  }

  /** The bytes that callers have sent through the socket. */
  function Sent(es: seq<Event>, id: nat): nat {
    if es == [] then 0
    else
      var (past, e) := (es[..|es| - 1], es[|es| - 1]);
      Sent(past, id) + (if e.Send? && Target(past, e.call) == Some(id) then Latest(past, e.call).value.size else 0)
  }

  /** An event of the goroutine of a socket, or its start. */
  predicate IsOf(e: Event, id: nat) {
    (e.Insert? || IsFetch(e)) && e.id == id
  }

  /** What the goroutine did last. */
  function LastOf(es: seq<Event>, id: nat): Option<Event> {
    if es == [] then None
    else
      var (past, e) := (es[..|es| - 1], es[|es| - 1]);
      if IsOf(e, id) then Some(e) else LastOf(past, id)
  }

  /** The loop of fetchUDPInput: it sets the deadline, reads, counts and passes on, until something fails;
      then it closes, and is done. */
  predicate Follows(last: Option<Event>, e: Event) {
    match e
    case Insert(_) => last.None?
    case Arm(_) => last.Some? && (last.value.Insert? || (last.value.Deliver? && last.value.ok))
    case ReadOk(_, _) => last.Some? && last.value.Arm?
    case Expire(_) => last.Some? && last.value.Arm?
    case ReadFails(_) => last.Some? && last.value.Arm?
    case Count(_) => last.Some? && last.value.ReadOk?
    case Deliver(_, _) => last.Some? && last.value.Count?
    case FetchClose(_) =>
      && last.Some?
      && (last.value.Expire? || last.value.ReadFails? || (last.value.Deliver? && !last.value.ok))
    case _ => true
  }

  /** The bytes that were read from the socket. */
  function Fetched(es: seq<Event>, id: nat): nat {
    if es == [] then 0
    else
      var (past, e) := (es[..|es| - 1], es[|es| - 1]);
      Fetched(past, id) + (if e.ReadOk? && e.id == id then e.size else 0)
  }

  /** The bytes that were read from the socket, as far as they have been counted. */
  function Got(es: seq<Event>, id: nat): nat {
    if es == [] then 0
    else
      var (past, e) := (es[..|es| - 1], es[|es| - 1]);
      var last := LastOf(past, id);
      Got(past, id) + (if e == Count(id) && last.Some? && last.value.ReadOk? then last.value.size else 0)
  }

  function Clock(es: seq<Event>, start: int): int {
    if es == [] then start
    else
      var (past, e) := (es[..|es| - 1], es[|es| - 1]);
      Clock(past, start) + (if e.Tick? then e.passed else 0)
  }

  /** The timeout after the last time the goroutine began to read, or a packet came for the socket. */
  function Due(es: seq<Event>, timeout: int, start: int, id: nat): Option<int> {
    if es == [] then None
    else
      var (past, e) := (es[..|es| - 1], es[|es| - 1]);
      if e == Arm(id) || (e.Touch? && Target(past, e.call) == Some(id)) then Some(Clock(past, start) + timeout)
      else Due(past, timeout, start, id)
  }

  /** A read of the socket has timed out or failed, or what was read could not be passed on. */
  predicate Broken(es: seq<Event>, id: nat) {
    Expire(id) in es || ReadFails(id) in es || Deliver(id, false) in es
  }

  /** The last request of the call has set the deadline. */
  predicate HasTouched(es: seq<Event>, call: nat) {
    es != [] &&
    var (past, e) := (es[..|es| - 1], es[|es| - 1]);
    e == Touch(call) || (!(e.Receive? && e.call == call) && HasTouched(past, call))
  }

  /** The call is under way: a packet until it is sent or resolved, if its connection reached a socket; and
      a close until it has run.  A resolved packet becomes a close if and only if nothing was counted for its
      socket until then. */
  predicate UnderWay(es: seq<Event>, call: nat) {
    es != [] &&
    var (past, e) := (es[..|es| - 1], es[|es| - 1]);
    if e.Receive? && e.call == call then Holder(past, e.to).Some?
    else if e.CloseCall? && e.call == call then true
    else if e == Send(call) || e == CloseBody(call) then false
    else if e == Resolved(call) then
      Target(past, call).Some? && Sent(past, Target(past, call).value) == 0 && Got(past, Target(past, call).value) == 0
    else UnderWay(past, call)
  }

  // The handler agrees

  /** A socket, or what it would be before it is opened. */
  function At(s: State, id: nat): Sock {
    if id < |s.socks| then s.socks[id] else Sock(0, true, None, 0, 0, NotStarted)
  }

  function Lookup(udpConns: map<ConnId, nat>, conn: ConnId): Option<nat> {
    if conn in udpConns then Some(udpConns[conn]) else None
  }

  predicate SocketsMatch(es: seq<Event>, s: State) {
    |Opened(es)| == |s.socks| && forall id :: 0 <= id < |s.socks| ==> Opened(es)[id] == s.socks[id].conn
  }

  ghost predicate TableMatches(es: seq<Event>, s: State) {
    forall conn: ConnId :: Holder(es, conn) == Lookup(s.udpConns, conn)
  }

  /** Where a call is, seen from its last request. */
  predicate Serves(c: Call, r: Request, touched: bool) {
    match c
    case Received(id, n, dns) => r.Packet? && r.holder == Some(id) && r.size == n && r.dns == dns && !touched
    case Sending(id, n) => r.Packet? && r.holder == Some(id) && r.size == n && !r.dns && touched
    case Resolving(id) => r.Packet? && r.holder == Some(id) && r.dns && touched
    case Closing(conn, closer) =>
      && r.to == conn && (closer.Caller? <==> r.Close?)
      && (closer.Doh? ==> r.Packet? && r.holder == Some(closer.sock) && r.dns && touched)
  }

  /** The socket of a packet belongs to the connection that it came for. */
  predicate TargetOk(s: State, r: Request) {
    r.Packet? && r.holder.Some? ==> r.holder.value < |s.socks| && s.socks[r.holder.value].conn == r.to
  }

  predicate CallMatches(es: seq<Event>, s: State, call: nat) {
    var r := Latest(es, call);
    && (call in s.calls <==> UnderWay(es, call))
    && (r.Some? ==> TargetOk(s, r.value))
    && (call in s.calls ==> r.Some? && Serves(s.calls[call], r.value, HasTouched(es, call)))
  }

  ghost predicate CallsMatch(es: seq<Event>, s: State) {
    forall call: nat :: CallMatches(es, s, call)
  }

  predicate CountsMatch(es: seq<Event>, id: nat, k: Sock) {
    && k.upload == Sent(es, id) && k.download == Got(es, id)
    && Fetched(es, id) == k.download + (if k.fetch.Counting? then k.fetch.n else 0)
  }

  /** Where the goroutine is, seen from what it did last. */
  predicate TurnMatches(last: Option<Event>, pc: FetchPc) {
    match pc
    case NotStarted => last.None?
    case Arming => last.Some? && (last.value.Insert? || (last.value.Deliver? && last.value.ok))
    case Reading => last.Some? && last.value.Arm?
    case Counting(n) => last.Some? && last.value.ReadOk? && last.value.size == n
    case Delivering => last.Some? && last.value.Count?
    case Exiting(_) =>
      && last.Some?
      && (last.value.Expire? || last.value.ReadFails? || (last.value.Deliver? && !last.value.ok))
    case Finished => last.Some? && last.value.FetchClose?
  }

  predicate FetchMatches(es: seq<Event>, id: nat, pc: FetchPc) {
    TurnMatches(LastOf(es, id), pc) && (pc.Exiting? || pc.Finished? <==> Broken(es, id))
  }

  predicate LifeMatches(es: seq<Event>, timeout: int, start: int, id: nat, k: Sock) {
    && k.deadline == Due(es, timeout, start, id)
    && (k.open <==> !Shut(es, id))
  }

  ghost predicate Matches(es: seq<Event>, timeout: int, start: int, s: State) {
    && s.timeout == timeout && s.now == Clock(es, start)
    && SocketsMatch(es, s) && TableMatches(es, s) && CallsMatch(es, s)
    && (forall id: nat :: CountsMatch(es, id, At(s, id)))
    && (forall id: nat :: FetchMatches(es, id, At(s, id).fetch))
    && (forall id: nat :: LifeMatches(es, timeout, start, id, At(s, id)))
  }

  // One more event

  lemma Past(es: seq<Event>, e: Event)
    ensures (es + [e])[..|es + [e]| - 1] == es && (es + [e])[|es + [e]| - 1] == e
  {
  }

  lemma SocketsAgree(es: seq<Event>, s: State, e: Event)
    requires SocketsMatch(es, s) && Enabled(s, e)
    ensures SocketsMatch(es + [e], Step(s, e))
  {
    Past(es, e);
  }

  lemma TableAgrees(es: seq<Event>, s: State, e: Event, conn: ConnId)
    requires SocketsMatch(es, s) && TableMatches(es, s) && CallsMatch(es, s) && Enabled(s, e)
    ensures Holder(es + [e], conn) == Lookup(Step(s, e).udpConns, conn)
  {
    Past(es, e);
    assert Holder(es, conn) == Lookup(s.udpConns, conn);
    if e.CloseBody? {
      assert CallMatches(es, s, e.call);
    }
  }

  /** An event of the call. */
  predicate Concerns(e: Event, call: nat) {
    (e.Receive? || e.Touch? || e.Send? || e.Resolved? || e.CloseCall? || e.CloseBody?) && e.call == call
  }

  lemma CallRests(es: seq<Event>, s: State, e: Event, call: nat)
    requires CallMatches(es, s, call) && Enabled(s, e) && !Concerns(e, call)
    ensures CallMatches(es + [e], Step(s, e), call)
  {
    Past(es, e);
    assert Latest(es + [e], call) == Latest(es, call);
    assert UnderWay(es + [e], call) == UnderWay(es, call);
    assert HasTouched(es + [e], call) == HasTouched(es, call);
  }

  lemma CallMoves(es: seq<Event>, s: State, e: Event, call: nat)
    requires SocketsMatch(es, s) && TableMatches(es, s) && CallMatches(es, s, call)
    requires Enabled(s, e) && Concerns(e, call)
    requires e.Resolved? ==> CountsMatch(es, s.calls[call].sock, s.socks[s.calls[call].sock])
    ensures CallMatches(es + [e], Step(s, e), call)
  {
    Past(es, e);
    if e.Receive? {
      assert Holder(es, e.to) == Lookup(s.udpConns, e.to);
    }
  }

  lemma CallAgrees(es: seq<Event>, s: State, e: Event, call: nat)
    requires SocketsMatch(es, s) && TableMatches(es, s) && CallMatches(es, s, call) && Enabled(s, e)
    requires forall id: nat :: CountsMatch(es, id, At(s, id))
    ensures CallMatches(es + [e], Step(s, e), call)
  {
    if !Concerns(e, call) {
      CallRests(es, s, e, call);
    } else {
      if e.Resolved? {
        assert CountsMatch(es, s.calls[call].sock, At(s, s.calls[call].sock));
      }
      CallMoves(es, s, e, call);
    }
  }

  lemma CountsAgree(es: seq<Event>, s: State, e: Event, id: nat)
    requires CallsMatch(es, s) && Enabled(s, e)
    requires CountsMatch(es, id, At(s, id)) && FetchMatches(es, id, At(s, id).fetch)
    ensures CountsMatch(es + [e], id, At(Step(s, e), id))
  {
    Past(es, e);
    if e.Send? {
      assert CallMatches(es, s, e.call);
    }
  }

  lemma FetchAgrees(es: seq<Event>, s: State, e: Event, id: nat)
    requires FetchMatches(es, id, At(s, id).fetch) && Enabled(s, e)
    ensures FetchMatches(es + [e], id, At(Step(s, e), id).fetch)
  {
    Past(es, e);
    assert LastOf(es + [e], id) == if IsOf(e, id) then Some(e) else LastOf(es, id);
  }

  lemma DeadlineAgrees(es: seq<Event>, timeout: int, start: int, s: State, e: Event, id: nat)
    requires s.timeout == timeout && s.now == Clock(es, start) && CallsMatch(es, s) && Enabled(s, e)
    requires At(s, id).deadline == Due(es, timeout, start, id)
    ensures At(Step(s, e), id).deadline == Due(es + [e], timeout, start, id)
  {
    Past(es, e);
    if e.Touch? {
      assert CallMatches(es, s, e.call);
    }
  }

  lemma OpenAgrees(es: seq<Event>, s: State, e: Event, id: nat)
    requires SocketsMatch(es, s) && TableMatches(es, s) && CallsMatch(es, s) && Enabled(s, e)
    requires At(s, id).open <==> !Shut(es, id)
    ensures At(Step(s, e), id).open <==> !Shut(es + [e], id)
  {
    Past(es, e);
    if e.CloseBody? {
      assert CallMatches(es, s, e.call);
    }
    if ClosedBy(es, e).Some? {
      assert Holder(es, ClosedBy(es, e).value) == Lookup(s.udpConns, ClosedBy(es, e).value);
    }
  }

  lemma StepAgrees(es: seq<Event>, timeout: int, start: int, s: State, e: Event)
    requires Matches(es, timeout, start, s) && Enabled(s, e)
    ensures Matches(es + [e], timeout, start, Step(s, e))
  {
    Past(es, e);
    SocketsAgree(es, s, e);
    forall conn: ConnId
      ensures Holder(es + [e], conn) == Lookup(Step(s, e).udpConns, conn)
    {
      TableAgrees(es, s, e, conn);
    }
    forall call: nat
      ensures CallMatches(es + [e], Step(s, e), call)
    {
      CallAgrees(es, s, e, call);
    }
    forall id: nat
      ensures CountsMatch(es + [e], id, At(Step(s, e), id))
      ensures FetchMatches(es + [e], id, At(Step(s, e), id).fetch)
      ensures LifeMatches(es + [e], timeout, start, id, At(Step(s, e), id))
    {
      assert CountsMatch(es, id, At(s, id)) && FetchMatches(es, id, At(s, id).fetch);
      assert LifeMatches(es, timeout, start, id, At(s, id));
      CountsAgree(es, s, e, id);
      FetchAgrees(es, s, e, id);
      DeadlineAgrees(es, timeout, start, s, e, id);
      OpenAgrees(es, s, e, id);
    }
  }

  lemma {:induction false} RunAgrees(past: seq<Event>, timeout: int, start: int, s: State, es: seq<Event>)
    requires Matches(past, timeout, start, s) && Executable(s, es)
    ensures Matches(past + es, timeout, start, Exec(s, es))
    decreases |es|
  {
    if es == [] {
      assert past + es == past;
    } else {
      StepAgrees(past, timeout, start, s, es[0]);
      RunAgrees(past + [es[0]], timeout, start, Step(s, es[0]), es[1..]);
      assert past + es == past + [es[0]] + es[1..];
    }
  }

  // Theorems

  /** The handler is in state `s` after the run `es`. */
  predicate RunsTo(timeout: int, start: int, es: seq<Event>, s: State) {
    Executable(Initial(timeout, start), es) && s == Exec(Initial(timeout, start), es)
  }

  lemma HandlerAgrees(timeout: int, start: int, es: seq<Event>, s: State)
    requires RunsTo(timeout, start, es, s)
    ensures Matches(es, timeout, start, s) && Inv(s)
  {
    var first := Initial(timeout, start);
    forall call: nat
      ensures CallMatches([], first, call)
    {
    }
    RunAgrees([], timeout, start, first, es);
    assert [] + es == es;
    RunKeepsInv(first, es);
  }

  /** A connection reaches the socket that was connected last for it, until its Close or the end of a
      goroutine of it; and a socket is open until its connection is closed while it reaches it. */
  lemma TableIsHistory(timeout: int, start: int, es: seq<Event>, s: State, conn: ConnId, id: nat)
    ensures RunsTo(timeout, start, es, s) ==>
              && (conn in s.udpConns && s.udpConns[conn] == id <==> Holder(es, conn) == Some(id))
              && |s.socks| == |Opened(es)|
              && (id < |s.socks| ==> s.socks[id].conn == Opened(es)[id] && (s.socks[id].open <==> !Shut(es, id)))
  {
    if RunsTo(timeout, start, es, s) {
      HandlerAgrees(timeout, start, es, s);
      assert Holder(es, conn) == Lookup(s.udpConns, conn);
      assert LifeMatches(es, timeout, start, id, At(s, id));
    }
  }

  /** What is counted for a socket, and so what the listener is told, is what callers have sent through it,
      without the DNS queries, and what was read from it. */
  lemma TotalsAreHistory(timeout: int, start: int, es: seq<Event>, s: State, id: nat)
    ensures RunsTo(timeout, start, es, s) && id < |s.socks| ==>
              && Uploaded(s.log, id) == s.socks[id].upload == Sent(es, id)
              && Downloaded(s.log, id) == s.socks[id].download == Got(es, id)
              && Fetched(es, id) == Got(es, id) + (if s.socks[id].fetch.Counting? then s.socks[id].fetch.n else 0)
  {
    if RunsTo(timeout, start, es, s) && id < |s.socks| {
      HandlerAgrees(timeout, start, es, s);
      assert Counted(s.log, id, s.socks[id]);
      assert CountsMatch(es, id, At(s, id));
    }
  }

  /** A socket's deadline is the timeout after the last time that its goroutine began to read or that a
      packet, DNS or not, came for it. */
  lemma DeadlineIsHistory(timeout: int, start: int, es: seq<Event>, s: State, id: nat)
    ensures RunsTo(timeout, start, es, s) && id < |s.socks| ==> s.socks[id].deadline == Due(es, timeout, start, id)
  {
    if RunsTo(timeout, start, es, s) && id < |s.socks| {
      HandlerAgrees(timeout, start, es, s);
      assert LifeMatches(es, timeout, start, id, At(s, id));
    }
  }

  /** A call is under way just if its packet found a socket and is still to be sent or resolved, if it is
      a close that has not run, or if its query was answered while its socket was unused, and the close
      that follows has not run. */
  lemma CallsAreHistory(timeout: int, start: int, es: seq<Event>, s: State, call: nat)
    ensures RunsTo(timeout, start, es, s) ==> (call in s.calls <==> UnderWay(es, call))
  {
    if RunsTo(timeout, start, es, s) {
      HandlerAgrees(timeout, start, es, s);
      assert CallMatches(es, s, call);
    }
  }

  lemma StageOf(es: seq<Event>, s: State, call: nat)
    requires TableOk(s) && CallMatches(es, s, call)
    ensures
      var r := Latest(es, call);
      var (touched, ready) := (HasTouched(es, call), UnderWay(es, call) && r.Some?);
      && (Enabled(s, Touch(call)) <==> ready && r.value.Packet? && !touched)
      && (Enabled(s, Send(call)) <==> ready && r.value.Packet? && touched && !r.value.dns)
      && (Enabled(s, Resolved(call)) || Enabled(s, CloseBody(call)) <==>
          ready && (r.value.Close? || (touched && r.value.dns)))
  {
    if call in s.calls {
      match s.calls[call]
      case Received(_, _, _) =>
      case Sending(_, _) =>
      case Resolving(_) =>
      case Closing(_, closer) =>
        assert !closer.Fetch?;
    }
  }

  /** A call sets its socket's deadline first; then it sends the packet, if that is not for the DNS server,
      and resolves it, and may have to close the connection, if it is. */
  lemma PacketsAreSorted(timeout: int, start: int, es: seq<Event>, s: State, call: nat)
    ensures RunsTo(timeout, start, es, s) ==>
              var r := Latest(es, call);
              var (touched, ready) := (HasTouched(es, call), UnderWay(es, call) && r.Some?);
              && (Enabled(s, Touch(call)) <==> ready && r.value.Packet? && !touched)
              && (Enabled(s, Send(call)) <==> ready && r.value.Packet? && touched && !r.value.dns)
              && (Enabled(s, Resolved(call)) || Enabled(s, CloseBody(call)) <==>
                  ready && (r.value.Close? || (touched && r.value.dns)))
  {
    if RunsTo(timeout, start, es, s) {
      HandlerAgrees(timeout, start, es, s);
      StageOf(es, s, call);
    }
  }

  lemma TurnOf(es: seq<Event>, timeout: int, start: int, s: State, e: Event)
    requires (e.Insert? || IsFetch(e)) && TableOk(s) && |s.socks| == |Opened(es)| && s.now == Clock(es, start)
    requires FetchMatches(es, e.id, At(s, e.id).fetch) && LifeMatches(es, timeout, start, e.id, At(s, e.id))
    ensures
      var due := Due(es, timeout, start, e.id);
      Enabled(s, e) <==>
        && e.id < |Opened(es)| && Follows(LastOf(es, e.id), e)
        && (e.ReadOk? || e.Expire? ==> !Shut(es, e.id))
        && (e.Expire? ==> due.Some? && due.value <= Clock(es, start))
    ensures Enabled(s, e) ==> (e.FetchClose? <==> Broken(es, e.id))
  {
  }

  /** A goroutine goes round its loop in order: it leaves it just if a read or a write to the connection has
      failed, it reads only from an open socket, and its read times out only when the socket is due. */
  lemma FetchRunsInOrder(timeout: int, start: int, es: seq<Event>, s: State, e: Event)
    ensures RunsTo(timeout, start, es, s) && (e.Insert? || IsFetch(e)) ==>
              var due := Due(es, timeout, start, e.id);
              && (Enabled(s, e) <==>
                    && e.id < |Opened(es)| && Follows(LastOf(es, e.id), e)
                    && (e.ReadOk? || e.Expire? ==> !Shut(es, e.id))
                    && (e.Expire? ==> due.Some? && due.value <= Clock(es, start)))
              && (Enabled(s, e) ==> (e.FetchClose? <==> Broken(es, e.id)))
  {
    if RunsTo(timeout, start, es, s) && (e.Insert? || IsFetch(e)) {
      HandlerAgrees(timeout, start, es, s);
      assert FetchMatches(es, e.id, At(s, e.id).fetch);
      assert LifeMatches(es, timeout, start, e.id, At(s, e.id));
      TurnOf(es, timeout, start, s, e);
    }
  }

  /** Callers may do anything at any time; a call number is free again once its call is over. */
  lemma CallersAreFree(timeout: int, start: int, es: seq<Event>, s: State, e: Event)
    ensures RunsTo(timeout, start, es, s) ==>
              && (e.Tick? || e.Open? ==> Enabled(s, e))
              && (e.Receive? || e.CloseCall? ==> (Enabled(s, e) <==> !UnderWay(es, e.call)))
  {
    if RunsTo(timeout, start, es, s) {
      HandlerAgrees(timeout, start, es, s);
      if e.Receive? || e.CloseCall? {
        CallsAreHistory(timeout, start, es, s, e.call);
      }
    }
  }
}
