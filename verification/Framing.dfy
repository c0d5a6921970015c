/** intra/doh/doh.go: DNS over a TCP socket, with a two-byte length in front of every message
    (section 4.2.2 of RFC 1035, section 8 of RFC 7766). */
module Framing {
  import opened Common
  import opened DnsMessage

  // The ideal reading of a stream of frames

  predicate Framable(m: seq<byte>) {
    |m| < U16
  }

  function Frame(m: seq<byte>): seq<byte>
    requires Framable(m)
  {
    PutWord(|m|) + m
  }

  /** `stream` starts with a whole frame. */
  predicate StartsWhole(stream: seq<byte>) {
    |stream| >= 2 && 2 + WordAt(stream, 0) <= |stream|
  }

  function FirstSize(stream: seq<byte>): nat
    requires StartsWhole(stream)
  {
    var size: int := WordAt(stream, 0);
    2 + size
  }

  /** The messages whose frames are complete. */
  function Deframe(stream: seq<byte>): seq<seq<byte>>
    decreases |stream|
  {
    if !StartsWhole(stream) then []
    else [stream[2..FirstSize(stream)]] + Deframe(stream[FirstSize(stream)..])
  }

  /** Two bytes of length, the high one first, and the message. */
  lemma FrameOnTheWire(m: seq<byte>)
    requires |m| < 65536
    ensures
      var f := Frame(m);
      |f| == |m| + 2 && f[0] == |m| / 256 && f[1] == |m| % 256 && f[2..] == m
  {
    var f := Frame(m);
    assert f[0] == PutWord(|m|)[0] && f[1] == PutWord(|m|)[1];
  }

  predicate AllFramable(ms: seq<seq<byte>>) {
    forall i :: 0 <= i < |ms| ==> Framable(ms[i])
  }

  function Frames(ms: seq<seq<byte>>): seq<byte>
    requires AllFramable(ms)
  {
    if ms == [] then [] else Frame(ms[0]) + Frames(ms[1..])
  }

  lemma FrameReads(m: seq<byte>, rest: seq<byte>)
    requires Framable(m)
    ensures
      var s := Frame(m) + rest;
      StartsWhole(s) && FirstSize(s) == 2 + |m| && s[2..FirstSize(s)] == m && s[FirstSize(s)..] == rest
  {
    var s := Frame(m) + rest;
    assert s[0] == PutWord(|m|)[0] && s[1] == PutWord(|m|)[1];
  }

  /** Frames can be read back in exactly one way. */
  lemma {:induction false} DeframeInvertsFrames(ms: seq<seq<byte>>)
    requires AllFramable(ms)
    ensures Deframe(Frames(ms)) == ms
  {
    if ms != [] {
      FrameReads(ms[0], Frames(ms[1..]));
      DeframeInvertsFrames(ms[1..]);
      assert [ms[0]] + ms[1..] == ms;
    }
  }

  /** Whole frames read back whatever follows them. */
  lemma {:induction false} DeframeStarts(ms: seq<seq<byte>>, rest: seq<byte>)
    requires AllFramable(ms)
    ensures Deframe(Frames(ms) + rest) == ms + Deframe(rest)
  {
    if ms == [] {
      assert Frames(ms) + rest == rest;
    } else {
      var more := Frames(ms[1..]) + rest;
      assert Frames(ms) + rest == Frame(ms[0]) + more;
      FrameReads(ms[0], more);
      DeframeStarts(ms[1..], rest);
      assert [ms[0]] + ms[1..] == ms;
    }
  }

  lemma {:induction false} FramesAppend(ms: seq<seq<byte>>, m: seq<byte>)
    requires AllFramable(ms) && Framable(m)
    ensures AllFramable(ms + [m]) && Frames(ms + [m]) == Frames(ms) + Frame(m)
  {
    if ms == [] {
      assert ms + [m] == [m];
      assert Frames([m][1..]) == [];
    } else {
      assert (ms + [m])[1..] == ms[1..] + [m];
      FramesAppend(ms[1..], m);
    }
  }

  // Accept: reading queries

  /** What the socket does for one Read: the number of bytes it gives, and whether it errs. */
  datatype Cut = Cut(n: nat, err: bool)

  /** The stub resolver's side of the socket: the bytes still to come, and how they will be cut.  When
      the cuts run out the socket has reached its end. */
  class Socket {
    var stream: seq<byte>
    var cuts: seq<Cut>
    var closed: bool

    constructor (stream: seq<byte>, cuts: seq<Cut>)
      ensures this.stream == stream && this.cuts == cuts && !closed
    {
      this.stream, this.cuts, closed := stream, cuts, false;
    }

    /** Read into a buffer of `size` bytes. */
    method Read(size: nat) returns (data: seq<byte>, err: bool)
      modifies this`stream, this`cuts
      ensures |data| <= size && old(stream) == data + stream
      ensures old(cuts) == [] ==> data == [] && err && cuts == []
      ensures old(cuts) != [] ==> cuts == old(cuts)[1..] && err == old(cuts)[0].err && |data| <= old(cuts)[0].n
      ensures old(cuts) != [] && old(cuts)[0].n >= size && |old(stream)| >= size ==> |data| == size
    {
      if cuts == [] {
        return [], true;
      }
      var c := cuts[0];
      cuts := cuts[1..];
      var n := if c.n < size then c.n else size;
      n := if n < |stream| then n else |stream|;
      data, err := stream[..n], c.err;
      stream := stream[n..];
    }
  }

  /** Two reads get all they ask for, without an error: the length of the first frame, and its message. */
  predicate FirstAligned(stream: seq<byte>, cuts: seq<Cut>)
    requires StartsWhole(stream)
  {
    && |cuts| >= 2
    && !cuts[0].err && cuts[0].n >= 2
    && !cuts[1].err && cuts[1].n >= WordAt(stream, 0)
  }

  /** The reads of Accept line up with the frames, until no whole frame is left. */
  predicate Aligned(stream: seq<byte>, cuts: seq<Cut>)
    decreases |stream|
  {
    StartsWhole(stream) ==> FirstAligned(stream, cuts) && Aligned(stream[FirstSize(stream)..], cuts[2..])
  }

  /** Read one query (:515-537).  There is one if and only if the reads line up with a whole frame. */
  method ReadQuery(c: Socket) returns (q: Option<seq<byte>>)
    modifies c`stream, c`cuts
    ensures q.Some? <==> StartsWhole(old(c.stream)) && FirstAligned(old(c.stream), old(c.cuts))
    ensures q.Some? ==>
              && c.cuts == old(c.cuts)[2..]
              && q.value == old(c.stream)[2..FirstSize(old(c.stream))]
              && c.stream == old(c.stream)[FirstSize(old(c.stream))..]
  {
    var qlbuf, err := c.Read(2);
    if |qlbuf| == 0 || err || |qlbuf| < 2 {
      return None;
    }
    ghost var s := old(c.stream);
    assert s[0] == qlbuf[0] && s[1] == qlbuf[1];
    var qlen: int := WordAt(qlbuf, 0);
    var query, err' := c.Read(qlen);
    if err' || |query| != qlen {
      return None;
    }
    assert s == qlbuf + (query + c.stream);
    assert StartsWhole(s) && FirstSize(s) == 2 + qlen;
    return Some(query);
  }

  /** Accept dispatches a prefix of the queries in the stream, however the socket cuts it; it
      dispatches all of them if and only if the cuts are aligned with the frames.  Then it closes the socket. */
  method Accept(c: Socket) returns (dispatched: seq<seq<byte>>)
    modifies c
    ensures dispatched <= Deframe(old(c.stream))
    ensures dispatched == Deframe(old(c.stream)) <==> Aligned(old(c.stream), old(c.cuts))
    ensures c.closed
  {
    dispatched := [];
    while true
      invariant Deframe(old(c.stream)) == dispatched + Deframe(c.stream)
      invariant Aligned(old(c.stream), old(c.cuts)) <==> Aligned(c.stream, c.cuts)
      decreases |c.cuts|
    {
      ghost var stream := c.stream;
      var q := ReadQuery(c);
      if q.None? {
        assert StartsWhole(stream) ==> Deframe(stream) != [];
        c.closed := true;
        return;
      }
      dispatched := dispatched + [q.value];
    }
  }

  /** A query whose length arrives in two pieces is dropped, although all of it is there to be read. */
  method ShortReadDropsQuery() returns (dispatched: seq<seq<byte>>)
    ensures Deframe(Frame([7])) == [[7]] && dispatched == []
  {
    FrameReads([7], []);
    var stream := Frame([7]);
    assert stream + [] == stream;
    assert Deframe([]) == [];
    var c := new Socket(stream, [Cut(1, false), Cut(2, false)]);
    dispatched := Accept(c);
    assert !FirstAligned(stream, [Cut(1, false), Cut(2, false)]);
  }

  // forwardQuery: writing responses, by any number of goroutines

  /** How a worker's write ended: it succeeded, it failed, or there was nothing to write. */
  datatype Ending = Written | WriteFailed | Refused

  /** The goroutine of one query; a None response is nil. */
  datatype Worker =
    | Querying
    | Answered(response: Option<seq<byte>>, qerr: bool)
    | Done(response: Option<seq<byte>>, qerr: bool, how: Ending, closed: bool)

  datatype State = State(
    workers: map<nat, Worker>,
    output: seq<byte>,               // everything the socket has taken
    written: seq<(nat, seq<byte>)>,  // the workers whose write succeeded, and what they wrote
    intact: seq<(nat, seq<byte>)>,   // those of them that wrote before a failed write left bytes behind
    torn: bool)                      // a failed write left bytes behind

  datatype Event =
    | Dispatch(id: nat)
    | Answer(id: nat, response: Option<seq<byte>>, qerr: bool)
    | Write(id: nat, n: nat, err: bool)
    | Close(id: nat)

  /** The message that a worker frames: none for a nil response with an error, and none for a response
      that is too long.  A nil response without an error counts as an empty one. */
  function ToWrite(response: Option<seq<byte>>, qerr: bool): (m: Option<seq<byte>>)
    ensures m.Some? ==> Framable(m.value)
  {
    if response.None? && qerr then None
    else
      var resp := if response.None? then [] else response.value;
      if Framable(resp) then Some(resp) else None
  }

  /** The stub resolver's side of the socket, as far as it is written to. */
  class Output {
    var bytes: seq<byte>
    var closed: bool

    constructor ()
      ensures bytes == [] && !closed
    {
      bytes, closed := [], false;
    }
  }

  /** forwardQuery, once the transport has answered; `n` and `werr` are the result of its one write. */
  method ForwardQuery(c: Output, response: Option<seq<byte>>, qerr: bool, n: nat, werr: bool)
    returns (err: bool, ghost how: Ending)
    requires ToWrite(response, qerr).Some? ==> n <= |Frame(ToWrite(response, qerr).value)|
    modifies c`bytes
    ensures ToWrite(response, qerr).None? ==> how == Refused && c.bytes == old(c.bytes)
    ensures ToWrite(response, qerr).Some? ==>
              && c.bytes == old(c.bytes) + Frame(ToWrite(response, qerr).value)[..n]
              && how == (if !werr && n == |Frame(ToWrite(response, qerr).value)| then Written else WriteFailed)
    ensures err <==> how != Written || qerr
  {
    if response.None? && qerr {
      return true, Refused;
    }
    var resp := if response.None? then [] else response.value;
    if |resp| >= U16 {
      return true, Refused;
    }
    var rlbuf := PutWord(|resp|) + resp;
    c.bytes := c.bytes + rlbuf[..n];
    if werr {
      return true, WriteFailed;
    }
    if n != |rlbuf| {
      return true, WriteFailed;
    }
    return qerr, Written;
  }

  predicate Enabled(s: State, e: Event) {
    match e
    case Dispatch(id) => id !in s.workers
    case Answer(id, _, _) => id in s.workers && s.workers[id].Querying?
    case Write(id, n, _) =>
      && id in s.workers && s.workers[id].Answered?
      && var m := ToWrite(s.workers[id].response, s.workers[id].qerr);
         m.Some? && n <= |Frame(m.value)|
    case Close(id) =>
      // forwardQuery has returned an error (:504-506)
      && id in s.workers && s.workers[id].Done? && !s.workers[id].closed
      && (s.workers[id].how != Written || s.workers[id].qerr)
  }

  function Step(s: State, e: Event): State
    requires Enabled(s, e)
  {
    match e
    case Dispatch(id) => s.(workers := s.workers[id := Querying])
    case Answer(id, response, qerr) =>
      s.(workers := s.workers[id :=
        if ToWrite(response, qerr).None? then Done(response, qerr, Refused, false) else Answered(response, qerr)])
    case Write(id, n, err) =>
      var Answered(response, qerr) := s.workers[id];
      var m := ToWrite(response, qerr).value;
      var ok := !err && n == |Frame(m)|;
      State(s.workers[id := Done(response, qerr, if ok then Written else WriteFailed, false)],
            s.output + Frame(m)[..n],
            if ok then s.written + [(id, m)] else s.written,
            if ok && !s.torn then s.intact + [(id, m)] else s.intact,
            s.torn || (!ok && n > 0))
    case Close(id) =>
      s.(workers := s.workers[id := s.workers[id].(closed := true)])
  }

  predicate Executable(s: State, es: seq<Event>)
    decreases |es|
  {
    es == [] || (Enabled(s, es[0]) && Executable(Step(s, es[0]), es[1..]))
  }

  function Exec(s: State, es: seq<Event>): State
    requires Executable(s, es)
    decreases |es|
  {
    if es == [] then s else Exec(Step(s, es[0]), es[1..])
  }

  const INITIAL := State(map[], [], [], [], false)

  function Messages(written: seq<(nat, seq<byte>)>): seq<seq<byte>> {
    seq(|written|, i requires 0 <= i < |written| => written[i].1)
  }

  /** The worker wrote this message, which is its own response. */
  predicate WroteItsResponse(workers: map<nat, Worker>, entry: (nat, seq<byte>)) {
    && entry.0 in workers && workers[entry.0].Done? && workers[entry.0].how == Written
    && ToWrite(workers[entry.0].response, workers[entry.0].qerr) == Some(entry.1)
  }

  /** What a worker that is done has done. */
  predicate Accounted(written: seq<(nat, seq<byte>)>, id: nat, w: Worker) {
    w.Done? ==>
      && (w.how == Refused <==> ToWrite(w.response, w.qerr).None?)
      && (w.how == Written ==> (id, ToWrite(w.response, w.qerr).value) in written)
      && (w.closed ==> w.how != Written || w.qerr)
  }

  /** The output starts with whole frames, and is nothing else until a failed write leaves bytes behind. */
  predicate StartsFramed(output: seq<byte>, written: seq<(nat, seq<byte>)>, intact: seq<(nat, seq<byte>)>, torn: bool) {
    && AllFramable(Messages(intact))
    && intact <= written
    && Frames(Messages(intact)) <= output
    && (!torn ==> intact == written && output == Frames(Messages(intact)))
  }

  /** The successful writes are those of the workers, one each. */
  predicate Recorded(workers: map<nat, Worker>, written: seq<(nat, seq<byte>)>) {
    && (forall i, j :: 0 <= i < j < |written| ==> written[i].0 != written[j].0)
    && (forall i :: 0 <= i < |written| ==> WroteItsResponse(workers, written[i]))
    && (forall id :: id in workers ==> Accounted(written, id, workers[id]))
  }

  predicate Inv(s: State) {
    StartsFramed(s.output, s.written, s.intact, s.torn) && Recorded(s.workers, s.written)
  }

  /** The worker's last steps: it has its answer, and writes it if there is something to write. */
  function Finished(s: State, id: nat, response: Option<seq<byte>>, qerr: bool, n: nat, werr: bool): State
    requires Enabled(s, Answer(id, response, qerr))
    requires ToWrite(response, qerr).Some? ==> n <= |Frame(ToWrite(response, qerr).value)|
  {
    var t := Step(s, Answer(id, response, qerr));
    if ToWrite(response, qerr).Some? then Step(t, Write(id, n, werr)) else t
  }

  /** forwardQueryAndCheck is those steps, and the worker's close if that is due then. */
  method ForwardQueryAndCheck(c: Output, ghost s: State, ghost id: nat, n: nat, werr: bool,
                              response: Option<seq<byte>>, qerr: bool)
    requires id in s.workers && s.workers[id] == Querying && c.bytes == s.output
    requires ToWrite(response, qerr).Some? ==> n <= |Frame(ToWrite(response, qerr).value)|
    modifies c
    ensures c.bytes == Finished(s, id, response, qerr, n, werr).output
    ensures c.closed <==> old(c.closed) || Enabled(Finished(s, id, response, qerr, n, werr), Close(id))
    // The socket is closed if the query or the write failed, or the response is too long for a frame.
    ensures c.closed <==>
            || old(c.closed) || qerr || (response.Some? && |response.value| > 65535)
            || werr || n < 2 + (if response.Some? then |response.value| else 0)
  {
    var err, how := ForwardQuery(c, response, qerr, n, werr);
    if err {
      c.closed := true;
    }
  }

  lemma SuccessStaysFramed(s: State, id: nat, m: seq<byte>)
    requires StartsFramed(s.output, s.written, s.intact, s.torn) && Framable(m)
    ensures
      var intact := if s.torn then s.intact else s.intact + [(id, m)];
      StartsFramed(s.output + Frame(m), s.written + [(id, m)], intact, s.torn)
  {
    FramesAppend(Messages(s.intact), m);
    assert Messages(s.intact + [(id, m)]) == Messages(s.intact) + [m];
  }

  lemma SuccessIsRecorded(workers: map<nat, Worker>, written: seq<(nat, seq<byte>)>, id: nat, m: seq<byte>)
    requires Recorded(workers, written) && id in workers && workers[id].Answered?
    requires ToWrite(workers[id].response, workers[id].qerr) == Some(m)
    ensures Recorded(workers[id := Done(workers[id].response, workers[id].qerr, Written, false)], written + [(id, m)])
  {
    var more := written + [(id, m)];
    assert more[|written|] == (id, m);
    assert forall i :: 0 <= i < |written| ==> WroteItsResponse(workers, written[i]) && written[i].0 != id;
  }

  lemma SuccessKeepsInv(s: State, id: nat)
    requires Inv(s) && id in s.workers && s.workers[id].Answered?
    requires ToWrite(s.workers[id].response, s.workers[id].qerr).Some?
    ensures
      var m := ToWrite(s.workers[id].response, s.workers[id].qerr).value;
      Inv(Step(s, Write(id, |Frame(m)|, false)))
  {
    var m := ToWrite(s.workers[id].response, s.workers[id].qerr).value;
    assert Frame(m)[..|Frame(m)|] == Frame(m);
    SuccessStaysFramed(s, id, m);
    SuccessIsRecorded(s.workers, s.written, id, m);
  }

  lemma FailureKeepsInv(s: State, id: nat, n: nat, err: bool)
    requires Inv(s) && Enabled(s, Write(id, n, err))
    requires err || n < |Frame(ToWrite(s.workers[id].response, s.workers[id].qerr).value)|
    ensures Inv(Step(s, Write(id, n, err)))
  {
    var t := Step(s, Write(id, n, err));
    assert n == 0 ==> t.output == s.output;
    assert t.written == s.written && t.intact == s.intact && s.output <= t.output;
  }

  lemma DispatchKeepsInv(s: State, id: nat)
    requires Inv(s) && Enabled(s, Dispatch(id))
    ensures Inv(Step(s, Dispatch(id)))
  {
  }

  lemma AnswerKeepsInv(s: State, id: nat, response: Option<seq<byte>>, qerr: bool)
    requires Inv(s) && Enabled(s, Answer(id, response, qerr))
    ensures Inv(Step(s, Answer(id, response, qerr)))
  {
  }

  lemma CloseKeepsInv(s: State, id: nat)
    requires Inv(s) && Enabled(s, Close(id))
    ensures Inv(Step(s, Close(id)))
  {
  }

  lemma StepKeepsInv(s: State, e: Event)
    requires Inv(s) && Enabled(s, e)
    ensures Inv(Step(s, e))
  {
    match e
    case Dispatch(id) => DispatchKeepsInv(s, id);
    case Answer(id, response, qerr) => AnswerKeepsInv(s, id, response, qerr);
    case Close(id) => CloseKeepsInv(s, id);
    case Write(id, n, err) =>
      var m := ToWrite(s.workers[id].response, s.workers[id].qerr).value;
      if err || n < |Frame(m)| {
        FailureKeepsInv(s, id, n, err);
      } else {
        SuccessKeepsInv(s, id);
      }
  }

  lemma {:induction false} RunKeepsInv(s: State, es: seq<Event>)
    requires Inv(s) && Executable(s, es)
    ensures Inv(Exec(s, es))
    decreases |es|
  {
    if es != [] {
      StepKeepsInv(s, es[0]);
      RunKeepsInv(Step(s, es[0]), es[1..]);
    }
  }

  lemma FramedReads(output: seq<byte>, written: seq<(nat, seq<byte>)>, intact: seq<(nat, seq<byte>)>, torn: bool)
    requires StartsFramed(output, written, intact, torn)
    ensures Messages(intact) <= Deframe(output)
    ensures !torn ==> Deframe(output) == Messages(written)
  {
    var ms := Messages(intact);
    var rest := output[|Frames(ms)|..];
    assert output == Frames(ms) + rest;
    DeframeStarts(ms, rest);
    if !torn {
      assert rest == [];
      assert Deframe([]) == [];
    }
  }

  /** For any number of queries finishing in any order: unless a failed write left bytes behind, the
      output is whole frames, which read back as the responses of the workers whose write succeeded, in
      the order of the writes, one for each worker.  If a failed write did, those written before it still
      come first. */
  lemma OutputDeframes(es: seq<Event>)
    requires Executable(INITIAL, es)
    ensures
      var s := Exec(INITIAL, es);
      && (!s.torn ==> Deframe(s.output) == Messages(s.written))
      && Messages(s.intact) <= Deframe(s.output) && s.intact <= s.written
      && (forall i, j :: 0 <= i < j < |s.written| ==> s.written[i].0 != s.written[j].0)
      && (forall i :: 0 <= i < |s.written| ==> WroteItsResponse(s.workers, s.written[i]))
  {
    assert Messages([]) == [];
    RunKeepsInv(INITIAL, es);
    var s := Exec(INITIAL, es);
    FramedReads(s.output, s.written, s.intact, s.torn);
  }

  /** What a worker that is done has written.  A response that fits a frame has been written, unless the write
      failed; so has an empty one in place of a nil response without an error.  A response that is too long, or
      nil with an error, contributes nothing.  The worker closes the socket only if its query or its write
      failed or its response is too long: so a SERVFAIL that comes with an error goes out first. */
  lemma ResponseBeforeClose(es: seq<Event>, id: nat)
    requires Executable(INITIAL, es) && id in Exec(INITIAL, es).workers && Exec(INITIAL, es).workers[id].Done?
    ensures
      var s := Exec(INITIAL, es);
      var w := s.workers[id];
      var tooLong := w.response.Some? && |w.response.value| > 65535;
      && (w.closed ==> w.qerr || w.how == WriteFailed || tooLong)
      && (w.how != WriteFailed && w.response.Some? && !tooLong ==> (id, w.response.value) in s.written)
      && (w.how != WriteFailed && w.response.None? && !w.qerr ==> (id, []) in s.written)
      && (tooLong || (w.response.None? && w.qerr) ==> forall m :: (id, m) !in s.written)
      && (forall m :: (id, m) in s.written ==> m == if w.response.Some? then w.response.value else [])
  {
    assert Messages([]) == [];
    RunKeepsInv(INITIAL, es);
    var s := Exec(INITIAL, es);
    var w := s.workers[id];
    assert Accounted(s.written, id, w);
    forall m | (id, m) in s.written
      ensures WroteItsResponse(s.workers, (id, m))
    {
      var i :| 0 <= i < |s.written| && s.written[i] == (id, m);
    }
  }
}
