// intra/doh/doh.go: the transport that sends one DNS query over HTTPS.
module DohTransport {
  import opened Common
  import opened DnsMessage
  import opened DnsRoundTrip
  import opened Padding
  import opened ServfailResponse
  import opened IpSets
  import opened IpSetProtocol
  import opened Sockets

  datatype Status = Complete | SendFailed | HTTPError | BadQuery | BadResponse | InternalError

  /** How the HTTP exchange ends. */
  datatype Reply = NoReply | BodyUnreadable | Replied(httpStatus: int, body: seq<byte>)

  /** What the clock, the HTTP library and the network do during one query.  `host` is the host that
      replied, which a redirect may have changed, and `resolved` what the resolver says of it; `server` is
      the address of the connection that the request used, if the trace saw one. */
  datatype World = World(
    checkTime: int, requestFails: bool, reply: Reply, host: string, resolved: seq<IP>, server: Option<IP>,
    failTime: int)

  const HANGOVER_DURATION := 10
  const STATUS_OK := 200

  /** The status that sendRequest reports. */
  function SendStatus(reply: Reply): Status {
    match reply
    case NoReply => SendFailed
    case BodyUnreadable => BadResponse
    case Replied(code, _) => if code == STATUS_OK then Complete else HTTPError
  }

  /** The status of the whole exchange: sendRequest's, or BadResponse for a body without the ID 0. */
  function ReplyStatus(reply: Reply): Status {
    if SendStatus(reply) != Complete then SendStatus(reply)
    else if |reply.body| < 2 || WordAt(reply.body, 0) != 0 then BadResponse
    else Complete
  }

  function ZeroId(msg: seq<byte>): seq<byte>
    requires |msg| >= 2
  {
    [0, 0] + msg[2..]
  }

  /** What a query comes to: the status, the response (None for nil), the body posted if any, what is
      left in the caller's slice, and the hangover from then on. */
  datatype Outcome = Outcome(
    status: Status, response: Option<seq<byte>>, posted: Option<seq<byte>>, query: seq<byte>, hangover: int)

  /** "Ask the server, and match the answer by ID": doQuery as its caller is to see it.  A failure is
      answered as if the query had never been padded. */
  function Ask(raw: seq<byte>, hangover: int, w: World): Outcome {
    if |raw| < 2 then Outcome(BadQuery, None, None, raw, hangover)
    else if w.checkTime < hangover then Outcome(HTTPError, Servfail(raw), None, raw, hangover)
    else AskPadded(raw, hangover, w)
  }

  /** Outside the hangover. */
  function AskPadded(raw: seq<byte>, hangover: int, w: World): Outcome {
    var padded := AddEdnsPadding(raw);
    if padded.None? then Outcome(InternalError, None, None, raw, hangover)
    else
      PaddingKeepsId(raw);
      if w.requestFails then
        Outcome(InternalError, None, None, if AlreadyPadded(Unpack(raw).value) then ZeroId(raw) else raw, hangover)
      else
        var status := ReplyStatus(w.reply);
        Outcome(status,
                if status == Complete then Some(raw[..2] + w.reply.body[2..]) else Servfail(raw),
                Some(ZeroId(padded.value)),
                raw,
                if status == Complete || status == SendFailed then hangover else w.failTime + HANGOVER_DURATION)
  }

  method PutId(a: array<byte>, id: Word)
    requires a.Length >= 2
    modifies a
    ensures a[..] == PutWord(id) + old(a[..])[2..]
  {
    a[0] := PutWord(id)[0];
    a[1] := PutWord(id)[1];
  }

  /** The slice that AddEdnsPadding returns: the caller's own one if it was padded already. */
  method PadSlice(q: array<byte>) returns (padded: array?<byte>)
    ensures padded == null <==> AddEdnsPadding(q[..]).None?
    ensures padded != null ==> padded[..] == AddEdnsPadding(q[..]).value
    ensures padded != null ==>
              if AlreadyPadded(Unpack(q[..]).value) then padded == q else fresh(padded)
  {
    var raw := q[..];
    var out := AddEdnsPaddingStepwise(raw);
    if out.None? {
      return null;
    }
    if AlreadyPadded(Unpack(raw).value) {
      return q;
    }
    var bytes := out.value;
    padded := new byte[|bytes|](i requires 0 <= i < |bytes| => bytes[i]);
    assert padded[..] == bytes;
  }

  lemma AskUnsent(raw: seq<byte>, hangover: int, w: World)
    requires AddEdnsPadding(raw).Some? && w.requestFails
    ensures |AddEdnsPadding(raw).value| >= 2 && |raw| >= 2
    ensures
      AskPadded(raw, hangover, w) ==
      Outcome(InternalError, None, None, if AlreadyPadded(Unpack(raw).value) then ZeroId(raw) else raw, hangover)
  {
    PaddingKeepsId(raw);
  }

  function OutcomeOfPadded(padded: seq<byte>, raw: seq<byte>, hangover: int, w: World): Outcome
    requires |padded| >= 2
  {
    var status := ReplyStatus(w.reply);
    Outcome(status,
            if status == Complete then Some(padded[..2] + w.reply.body[2..]) else Servfail(padded),
            Some(ZeroId(padded)),
            raw,
            if status == Complete || status == SendFailed then hangover else w.failTime + HANGOVER_DURATION)
  }

  /** The outcome in terms of the padded query, which is all that the rest of doQuery sees. */
  lemma AskSent(raw: seq<byte>, hangover: int, w: World)
    requires AddEdnsPadding(raw).Some? && !w.requestFails
    ensures |AddEdnsPadding(raw).value| >= 2
    ensures AskPadded(raw, hangover, w) == OutcomeOfPadded(AddEdnsPadding(raw).value, raw, hangover, w)
  {
    PaddingKeepsId(raw);
    ServfailIgnoresPadding(raw);
  }

  /** What is to come of a query, in terms of the slice that AddEdnsPadding returns. */
  ghost predicate Foreseen(o: Outcome, q: array<byte>, padded: array?<byte>, hangover: int, w: World)
    reads q, padded
  {
    if padded == null then o == Outcome(InternalError, None, None, q[..], hangover)
    else
      && padded.Length >= 2 && q.Length >= 2
      && if w.requestFails
         then o == Outcome(InternalError, None, None, if padded == q then ZeroId(q[..]) else q[..], hangover)
         else o == OutcomeOfPadded(padded[..], q[..], hangover, w)
  }

  method PadQuery(q: array<byte>, ghost hangover: int, w: World) returns (padded: array?<byte>, ghost o: Outcome)
    ensures o == AskPadded(q[..], hangover, w) && Foreseen(o, q, padded, hangover, w)
    ensures padded == null || padded == q || fresh(padded)
  {
    padded := PadSlice(q);
    o := AskPadded(q[..], hangover, w);
    if padded != null {
      if w.requestFails {
        AskUnsent(q[..], hangover, w);
      } else {
        AskSent(q[..], hangover, w);
      }
    }
  }

  class Transport {
    var hangoverExpiration: int
    const hostname: string           // of the server's URL
    const ips: IpMap                 // the addresses of every host that was asked
    var requests: seq<seq<byte>>     // the bodies posted so far

    constructor (hostname: string)
      ensures hangoverExpiration == 0 && requests == [] && fresh(ips) && ips.Valid() && ips.m == map[]
      ensures this.hostname == hostname
    {
      hangoverExpiration, requests, this.hostname := 0, [], hostname;
      ips := new IpMap();
    }

    /** The host that a query is taken to have been sent to: that of the last URL once a reply was read. */
    function AskedHost(w: World): (host: string)
      ensures w.reply.Replied? ==> host == w.host
      ensures !w.reply.Replied? ==> host == hostname
    {
      if w.reply.Replied? then w.host else hostname
    }

    /** What sendRequest does, given how the HTTP library fares.  After a failure the connection that was
        used is closed, and its address is not the confirmed one of its host any more. */
    method SendRequest(body: seq<byte>, conn: TcpConn?, w: World)
      returns (response: seq<byte>, host: string, status: Status)
      requires ips.Valid() && (conn != null <==> w.server.Some?)
      modifies this`requests, ips, ips.m.Values, conn
      ensures ips.Valid() && forall h :: h in ips.m ==> h in old(ips.m) || fresh(ips.m[h])
      ensures requests == old(requests) + [body] && status == SendStatus(w.reply)
      ensures host == (if w.reply.Replied? then w.host else hostname)
      ensures status == Complete ==> w.reply.Replied? && response == w.reply.body
      ensures conn != null ==> conn.closed == (old(conn.closed) || status != Complete)
      ensures forall h :: h in old(ips.m) ==> h in ips.m && ips.m[h] == old(ips.m[h])
      ensures forall h :: h in old(ips.m) && (status == Complete || h != host) ==> unchanged(old(ips.m[h]))
      ensures status != Complete && w.server.Some? && w.server.value != NIL ==>
                host in ips.m && !Equal(w.server.value, ips.m[host].confirmed)
    {
      requests := requests + [body];
      host := hostname;
      status := SendStatus(w.reply);
      response := [];
      if w.reply.Replied? {
        response := w.reply.body;
        host := w.host;
      }
      if status != Complete && conn != null {
        var s := ips.Get(host, w.resolved);
        EqualIsCanon(w.server.value, s.confirmed);
        EqualIsCanon(w.server.value, NIL);
        s.Disconfirm(w.server.value);
        conn.Close();
      }
    }

    /** From :268 on, without the SERVFAIL: `padded` goes out with the ID 0 and gets its ID back. */
    method Exchange(padded: array<byte>, conn: TcpConn?, w: World)
      returns (body: seq<byte>, host: string, status: Status)
      requires padded.Length >= 2 && !w.requestFails
      requires ips.Valid() && (conn != null <==> w.server.Some?)
      modifies this, ips, ips.m.Values, conn, padded
      ensures ips.Valid() && forall h :: h in ips.m ==> h in old(ips.m) || fresh(ips.m[h])
      ensures forall h :: h in old(ips.m) ==> h in ips.m && ips.m[h] == old(ips.m[h])
      ensures forall h :: h in old(ips.m) && h != host ==> unchanged(old(ips.m[h]))
      ensures conn != null ==> conn.closed == (old(conn.closed) || SendStatus(w.reply) != Complete)
      ensures padded[..] == old(padded[..]) && host == AskedHost(w)
      ensures requests == old(requests) + [ZeroId(old(padded[..]))]
      ensures status == ReplyStatus(w.reply)
      ensures status == Complete ==> body == old(padded[..])[..2] + w.reply.body[2..]
      ensures hangoverExpiration ==
              if status == Complete || status == SendFailed then old(hangoverExpiration)
              else w.failTime + HANGOVER_DURATION
    {
      ghost var out := padded[..];
      var id := WordAt(padded[..], 0);
      PutId(padded, 0);
      body, host, status := SendRequest(padded[..], conn, w);
      PutId(padded, id);
      IdRestored(out, padded[..], id);
      if status == Complete {
        if |body| >= 2 {
          if WordAt(body, 0) == 0 {
            body := PutWord(id) + body[2..];
            WordWrites(out, 0);
          } else {
            status := BadResponse;
          }
        } else {
          status := BadResponse;
        }
      }
      if status != Complete && status != SendFailed {
        hangoverExpiration := w.failTime + HANGOVER_DURATION;
      }
    }

    /** The address of the server, if there is one, is the confirmed one of the host that was asked. */
    ghost predicate ServerConfirmed(w: World)
      reads ips, ips.m.Values
    {
      w.server.Some? ==>
        && AskedHost(w) in ips.m
        && Equal(w.server.value, ips.m[AskedHost(w)].confirmed)
    }

    /** No set is replaced, and those of other hosts are unchanged. */
    twostate predicate OthersUnchanged(w: World)
      reads ips, ips.m.Values
    {
      forall h :: h in old(ips.m) ==>
        h in ips.m && ips.m[h] == old(ips.m[h]) && (h != AskedHost(w) ==> unchanged(ips.m[h]))
    }

    /** From :268 on: `padded` is what AddEdnsPadding has returned. */
    method Forward(padded: array<byte>, conn: TcpConn?, w: World)
      returns (response: Option<seq<byte>>, status: Status)
      requires padded.Length >= 2 && !w.requestFails
      requires ips.Valid() && (conn != null <==> w.server.Some?)
      modifies this, ips, ips.m.Values, conn, padded
      ensures ips.Valid() && ServerConfirmed(w) && OthersUnchanged(w)
      ensures padded[..] == old(padded[..])
      ensures requests == old(requests) + [ZeroId(old(padded[..]))]
      ensures status == ReplyStatus(w.reply)
      ensures response ==
              if status == Complete then Some(old(padded[..])[..2] + w.reply.body[2..]) else Servfail(old(padded[..]))
      ensures hangoverExpiration ==
              if status == Complete || status == SendFailed then old(hangoverExpiration)
              else w.failTime + HANGOVER_DURATION
    {
      var body, host;
      body, host, status := Exchange(padded, conn, w);
      response := if status == Complete then Some(body) else Servfail(padded[..]);
      if conn != null {
        var s := ips.Get(host, w.resolved);
        s.Confirm(w.server.value);
      }
    }

    /** What a query has come to, after the requests `before` had been posted. */
    ghost predicate Done(o: Outcome, before: seq<seq<byte>>, q: array<byte>, response: Option<seq<byte>>,
                         status: Status)
      reads this, q
    {
      && status == o.status && response == o.response && q[..] == o.query && hangoverExpiration == o.hangover
      && requests == before + (if o.posted.Some? then [o.posted.value] else [])
    }

    /** From :268 on: `padded` is what AddEdnsPadding has returned, perhaps the caller's own slice. */
    method SendPadded(q: array<byte>, padded: array<byte>, conn: TcpConn?, w: World, ghost o: Outcome)
      returns (response: Option<seq<byte>>, status: Status)
      requires Foreseen(o, q, padded, hangoverExpiration, w)
      requires ips.Valid() && (conn != null <==> w.server.Some?)
      modifies this, ips, ips.m.Values, conn, padded
      ensures Done(o, old(requests), q, response, status) && (o.posted.Some? ==> ServerConfirmed(w))
      ensures ips.Valid() && OthersUnchanged(w)
    {
      if w.requestFails {
        PutId(padded, 0);
        return None, InternalError;
      }
      response, status := Forward(padded, conn, w);
    }

    /** From :261 on. */
    method PadAndForward(q: array<byte>, conn: TcpConn?, w: World) returns (response: Option<seq<byte>>, status: Status)
      requires ips.Valid() && (conn != null <==> w.server.Some?)
      modifies this, ips, ips.m.Values, conn, q
      ensures
        var o := AskPadded(old(q[..]), old(hangoverExpiration), w);
        Done(o, old(requests), q, response, status) && (o.posted.Some? ==> ServerConfirmed(w))
      ensures ips.Valid() && OthersUnchanged(w)
    {
      var padded, o := PadQuery(q, hangoverExpiration, w);
      if padded == null {
        return None, InternalError;
      }
      response, status := SendPadded(q, padded, conn, w, o);
    }

    /** `conn` is the connection that the HTTP library uses for the request, if it gets one. */
    method DoQuery(q: array<byte>, conn: TcpConn?, w: World) returns (response: Option<seq<byte>>, status: Status)
      requires ips.Valid() && (conn != null <==> w.server.Some?)
      modifies this, ips, ips.m.Values, conn, q
      ensures
        var o := Ask(old(q[..]), old(hangoverExpiration), w);
        // Success or not, the server of a query that was sent ends up confirmed.
        Done(o, old(requests), q, response, status) && (o.posted.Some? ==> ServerConfirmed(w))
      ensures ips.Valid() && OthersUnchanged(w)
    {
      if q.Length < 2 {
        return None, BadQuery;
      }
      if w.checkTime < hangoverExpiration {
        return Servfail(q[..]), HTTPError;
      }
      response, status := PadAndForward(q, conn, w);
    }
  }

  /** Overwriting the ID twice with what it was in the first place changes nothing. */
  lemma IdRestored(out: seq<byte>, now: seq<byte>, id: Word)
    requires |out| >= 2 && id == WordAt(out, 0)
    requires now == PutWord(id) + (PutWord(0) + out[2..])[2..]
    ensures now == out
  {
    WordWrites(out, 0);
    assert (PutWord(0) + out[2..])[2..] == out[2..];
  }
}
