/** What every run of the UDP handler keeps: sockets are conserved, the listener's totals are right, and
    associations live as long as the timeout says. */
module UdpTheorems {
  import opened Common
  import opened UdpProtocol

  // Conservation of sockets

  predicate Tabled(udpConns: map<ConnId, nat>, conn: ConnId, id: nat) {
    conn in udpConns && udpConns[conn] == id
  }

  function One(b: bool): nat {
    if b then 1 else 0
  }

  /** A socket is in exactly one of four places: not yet in the table, in the table, displaced from it,
      or removed.  It is closed just if it has been removed, and then it was reported once. */
  predicate Placed(udpConns: map<ConnId, nat>, displaced: set<nat>, log: seq<Entry>, id: nat, k: Sock) {
    && One(k.fetch.NotStarted?) + One(Tabled(udpConns, k.conn, id)) + One(id in displaced) + Removals(log, id) == 1
    && (k.open <==> Removals(log, id) == 0)
  }

  predicate Counted(log: seq<Entry>, id: nat, k: Sock) {
    k.upload == Uploaded(log, id) && k.download == Downloaded(log, id)
  }

  /** Only a socket whose connection has been connected again can be displaced. */
  predicate DisplacedByAnother(s: State) {
    forall id :: id in s.displaced ==>
      id < |s.socks| && exists j :: 0 <= j < |s.socks| && j != id && s.socks[j].conn == s.socks[id].conn
  }

  predicate Conserves(s: State) {
    && TableOk(s)
    && DisplacedByAnother(s)
    && (forall id :: 0 <= id < |s.socks| ==> Placed(s.udpConns, s.displaced, s.log, id, s.socks[id]))
    && (forall id :: 0 <= id < |s.socks| ==> Counted(s.log, id, s.socks[id]))
    && (forall i :: 0 <= i < |s.log| ==> s.log[i].id < |s.socks|)
    && (forall call :: call in s.calls && !s.calls[call].Closing? ==> s.calls[call].sock < |s.socks|)
  }

  /** Every report gives the totals of what was counted before it. */
  predicate Truthful(log: seq<Entry>) {
    forall i :: 0 <= i < |log| && log[i].Removed? ==>
      log[i].upload == Uploaded(log[..i], log[i].id) && log[i].download == Downloaded(log[..i], log[i].id)
  }

  // Lifetime

  /** The deadline is the last activity plus the timeout. */
  predicate DeadlineOk(log: seq<Entry>, timeout: int, now: int, id: nat, k: Sock) {
    && (k.deadline.Some? ==>
          exists i :: 0 <= i < |log| && log[i] == Touched(id, k.deadline.value - timeout))
    && (forall i :: 0 <= i < |log| && log[i].Touched? && log[i].id == id ==>
          log[i].at <= now && k.deadline.Some? && log[i].at + timeout <= k.deadline.value)
  }

  /** Whatever activity there was before the entry `i` is at least the timeout old at `at`. */
  predicate Idle(log: seq<Entry>, timeout: int, i: nat, id: nat, at: int) {
    forall j :: 0 <= j < i && j < |log| && log[j].Touched? && log[j].id == id ==> log[j].at + timeout <= at
  }

  predicate ExpiriesOk(log: seq<Entry>, timeout: int, now: int) {
    forall i :: 0 <= i < |log| && log[i].Expired? ==> Idle(log, timeout, i, log[i].id, log[i].at) && log[i].at <= now
  }

  /** `e` is the entry of a read of the socket that timed out, before the entry `i`. */
  predicate IsExpiry(log: seq<Entry>, e: nat, i: nat, id: nat) {
    e < i && e < |log| && log[e].Expired? && log[e].id == id
  }

  /** The closer is a fetch goroutine whose read has timed out. */
  predicate TimedOut(closer: Closer) {
    closer.Fetch? && closer.expiry.Some?
  }

  predicate RemovalsOk(log: seq<Entry>, now: int) {
    forall i :: 0 <= i < |log| && log[i].Removed? ==>
      && log[i].at <= now
      && (TimedOut(log[i].closer) ==>
            && IsExpiry(log, log[i].closer.expiry.value, i, log[i].closer.sock)
            && log[log[i].closer.expiry.value].at <= log[i].at)
  }

  predicate FetchOk(log: seq<Entry>, id: nat, k: Sock) {
    k.fetch.Exiting? && k.fetch.expiry.Some? ==> IsExpiry(log, k.fetch.expiry.value, |log|, id)
  }

  predicate Lives(s: State) {
    && TableOk(s)
    && (forall id :: 0 <= id < |s.socks| ==> DeadlineOk(s.log, s.timeout, s.now, id, s.socks[id]))
    && (forall id :: 0 <= id < |s.socks| ==> FetchOk(s.log, id, s.socks[id]))
    && (forall i :: 0 <= i < |s.log| ==> s.log[i].id < |s.socks|)
    && ExpiriesOk(s.log, s.timeout, s.now)
    && RemovalsOk(s.log, s.now)
  }

  // Steps keep the conservation

  /** One more entry. */
  lemma Logged(log: seq<Entry>, e: Entry)
    ensures forall id :: Removals(log + [e], id) == Removals(log, id) + One(e.Removed? && e.id == id)
    ensures forall id :: Uploaded(log + [e], id) == Uploaded(log, id) + (if e.Up? && e.id == id then e.n else 0)
    ensures forall id :: Downloaded(log + [e], id) == Downloaded(log, id) + (if e.Down? && e.id == id then e.n else 0)
  {
    assert (log + [e])[..|log|] == log;
  }

  lemma LogKeepsTruth(log: seq<Entry>, e: Entry)
    requires Truthful(log)
    requires e.Removed? ==> e.upload == Uploaded(log, e.id) && e.download == Downloaded(log, e.id)
    ensures Truthful(log + [e])
  {
    var more := log + [e];
    forall i | 0 <= i < |more| && more[i].Removed?
      ensures more[i].upload == Uploaded(more[..i], more[i].id) && more[i].download == Downloaded(more[..i], more[i].id)
    {
      assert more[..i] == log[..i];
      assert log[..|log|] == log;
    }
  }

  lemma OpensConserves(s: State, conn: ConnId)
    requires Conserves(s)
    ensures Conserves(Opens(s, conn))
  {
    NoEntries(s.log, |s.socks|);
    var t := Opens(s, conn);
    forall id | id in t.displaced
      ensures id < |t.socks| && exists j :: 0 <= j < |t.socks| && j != id && t.socks[j].conn == t.socks[id].conn
    {
      var j :| 0 <= j < |s.socks| && j != id && s.socks[j].conn == s.socks[id].conn;
      assert t.socks[j].conn == t.socks[id].conn;
    }
  }

  lemma {:induction false} NoEntries(log: seq<Entry>, id: nat)
    requires forall i :: 0 <= i < |log| ==> log[i].id < id
    ensures Removals(log, id) == 0 && Uploaded(log, id) == 0 && Downloaded(log, id) == 0
  {
    if log != [] {
      NoEntries(log[..|log| - 1], id);
    }
  }

  /** Same sockets, same connections. */
  lemma DisplacedStays(s: State, t: State)
    requires DisplacedByAnother(s) && t.displaced == s.displaced && |t.socks| == |s.socks|
    requires forall id :: 0 <= id < |s.socks| ==> t.socks[id].conn == s.socks[id].conn
    ensures DisplacedByAnother(t)
  {
    forall id | id in t.displaced
      ensures id < |t.socks| && exists j :: 0 <= j < |t.socks| && j != id && t.socks[j].conn == t.socks[id].conn
    {
      var j :| 0 <= j < |s.socks| && j != id && s.socks[j].conn == s.socks[id].conn;
      assert t.socks[j].conn == t.socks[id].conn;
    }
  }

  lemma InsertsConserves(s: State, id: nat)
    requires Conserves(s) && id < |s.socks| && s.socks[id].fetch.NotStarted?
    ensures Conserves(Inserts(s, id))
  {
    var t := Inserts(s, id);
    var conn := s.socks[id].conn;
    assert Placed(s.udpConns, s.displaced, s.log, id, s.socks[id]);
    forall k | 0 <= k < |t.socks|
      ensures Placed(t.udpConns, t.displaced, t.log, k, t.socks[k])
    {
      assert Placed(s.udpConns, s.displaced, s.log, k, s.socks[k]);
    }
    forall k | k in t.displaced
      ensures k < |t.socks| && exists j :: 0 <= j < |t.socks| && j != k && t.socks[j].conn == t.socks[k].conn
    {
      if k in s.displaced {
        var j :| 0 <= j < |s.socks| && j != k && s.socks[j].conn == s.socks[k].conn;
        assert t.socks[j].conn == t.socks[k].conn;
      } else {
        assert t.socks[id].conn == t.socks[k].conn;
      }
    }
  }

  lemma GoesConserves(s: State, id: nat, pc: FetchPc)
    requires Conserves(s) && id < |s.socks| && !s.socks[id].fetch.NotStarted? && !pc.NotStarted?
    ensures Conserves(Goes(s, id, pc))
  {
    DisplacedStays(s, Goes(s, id, pc));
  }

  lemma TouchesConserves(s: State, id: nat)
    requires Conserves(s) && id < |s.socks|
    ensures Conserves(Touches(s, id))
  {
    Logged(s.log, Touched(id, s.now));
    DisplacedStays(s, Touches(s, id));
  }

  lemma ExpiresConserves(s: State, id: nat)
    requires Conserves(s) && id < |s.socks| && !s.socks[id].fetch.NotStarted?
    ensures Conserves(Expires(s, id))
  {
    Logged(s.log, Expired(id, s.now));
    DisplacedStays(s, Expires(s, id));
  }

  lemma CountsConserves(s: State, id: nat)
    requires Conserves(s) && id < |s.socks| && s.socks[id].fetch.Counting?
    ensures Conserves(Counts(s, id))
  {
    Logged(s.log, Down(id, s.socks[id].fetch.n));
    DisplacedStays(s, Counts(s, id));
  }

  lemma UploadsConserves(s: State, id: nat, n: nat)
    requires Conserves(s) && id < |s.socks|
    ensures Conserves(Uploads(s, id, n))
  {
    Logged(s.log, Up(id, n));
    DisplacedStays(s, Uploads(s, id, n));
  }

  lemma ClosesConserves(s: State, conn: ConnId, closer: Closer)
    requires Conserves(s)
    ensures Conserves(Closes(s, conn, closer))
  {
    if conn in s.udpConns {
      var t := Closes(s, conn, closer);
      var id := s.udpConns[conn];
      Logged(s.log, t.log[|s.log|]);
      DisplacedStays(s, t);
      forall k | 0 <= k < |t.socks|
        ensures Placed(t.udpConns, t.displaced, t.log, k, t.socks[k])
      {
        assert Placed(s.udpConns, s.displaced, s.log, k, s.socks[k]);
      }
    }
  }

  lemma ArmConserves(s: State, id: nat)
    requires Conserves(s) && Enabled(s, Arm(id))
    ensures Conserves(Step(s, Arm(id)))
  {
    TouchesConserves(s, id);
    GoesConserves(Touches(s, id), id, Reading);
  }

  lemma FetchCloseConserves(s: State, id: nat)
    requires Conserves(s) && Enabled(s, FetchClose(id))
    ensures Conserves(Step(s, FetchClose(id)))
  {
    var closer := Fetch(id, s.socks[id].fetch.expiry);
    ClosesConserves(s, s.socks[id].conn, closer);
    GoesConserves(Closes(s, s.socks[id].conn, closer), id, Finished);
  }

  /** Only the calls under way have changed. */
  lemma CallsConserve(s: State, t: State)
    requires Conserves(s) && t == s.(calls := t.calls)
    requires forall call :: call in t.calls && !t.calls[call].Closing? ==> t.calls[call].sock < |s.socks|
    ensures Conserves(t)
  {
  }

  lemma ResolvesConserves(s: State, call: nat)
    requires Conserves(s) && Enabled(s, Resolved(call))
    ensures Conserves(CallResolves(s, call))
  {
    Logged(s.log, Answered(s.calls[call].sock));
    DisplacedStays(s, CallResolves(s, call));
  }

  /** The steps of fetchUDPInput. */
  predicate IsFetch(e: Event) {
    e.Arm? || e.ReadOk? || e.Expire? || e.ReadFails? || e.Count? || e.Deliver? || e.FetchClose?
  }

  lemma FetchStepConserves(s: State, e: Event)
    requires Conserves(s) && Enabled(s, e) && IsFetch(e)
    ensures Conserves(Step(s, e))
  {
    match e
    case Arm(id) => ArmConserves(s, id);
    case ReadOk(id, n) => GoesConserves(s, id, Counting(n));
    case Expire(id) => ExpiresConserves(s, id);
    case ReadFails(id) => GoesConserves(s, id, Exiting(None));
    case Count(id) => CountsConserves(s, id);
    case Deliver(id, ok) => GoesConserves(s, id, if ok then Arming else Exiting(None));
    case FetchClose(id) => FetchCloseConserves(s, id);
  }

  lemma StepConserves(s: State, e: Event)
    requires Conserves(s) && Enabled(s, e)
    ensures Conserves(Step(s, e))
  {
    if IsFetch(e) {
      FetchStepConserves(s, e);
    } else {
      match e
      case Open(conn) => OpensConserves(s, conn);
      case Insert(id) => InsertsConserves(s, id);
      case Touch(call) => TouchesConserves(s, s.calls[call].sock);
      case Send(call) => UploadsConserves(s, s.calls[call].sock, s.calls[call].n);
      case CloseBody(call) =>
        var Closing(conn, closer) := s.calls[call];
        ClosesConserves(s, conn, closer);
        CallsConserve(Closes(s, conn, closer), Step(s, e));
      case Receive(_, _, _, _) => CallsConserve(s, Step(s, e));
      case Resolved(call) => ResolvesConserves(s, call);
      case CloseCall(_, _) => CallsConserve(s, Step(s, e));
      case Tick(_) =>
    }
  }

  /** A step that adds a report adds a true one. */
  lemma StepKeepsTruth(s: State, e: Event)
    requires Conserves(s) && Truthful(s.log) && Enabled(s, e)
    ensures Truthful(Step(s, e).log)
  {
    var t := Step(s, e);
    if t.log != s.log {
      assert t.log == s.log + [t.log[|s.log|]];
      LogKeepsTruth(s.log, t.log[|s.log|]);
    }
  }

  // Steps keep the lifetimes

  /** An entry that sets no deadline leaves every deadline as good as it was. */
  lemma DeadlineStays(log: seq<Entry>, e: Entry, timeout: int, now: int, id: nat, k: Sock)
    requires DeadlineOk(log, timeout, now, id, k) && (e.Touched? ==> e.id != id)
    ensures DeadlineOk(log + [e], timeout, now, id, k)
  {
    var more := log + [e];
    if k.deadline.Some? {
      var i :| 0 <= i < |log| && log[i] == Touched(id, k.deadline.value - timeout);
      assert more[i] == log[i];
    }
  }

  lemma DeadlineMoves(log: seq<Entry>, timeout: int, now: int, id: nat, k: Sock)
    requires DeadlineOk(log, timeout, now, id, k)
    ensures DeadlineOk(log + [Touched(id, now)], timeout, now, id, k.(deadline := Some(now + timeout)))
  {
    assert (log + [Touched(id, now)])[|log|] == Touched(id, now);
  }

  lemma OldEntriesStay(log: seq<Entry>, e: Entry, timeout: int, now: int)
    requires ExpiriesOk(log, timeout, now) && RemovalsOk(log, now)
    requires e.Expired? ==> Idle(log, timeout, |log|, e.id, e.at) && e.at <= now
    requires e.Removed? ==>
               && e.at <= now
               && (TimedOut(e.closer) ==>
                     && IsExpiry(log, e.closer.expiry.value, |log|, e.closer.sock)
                     && log[e.closer.expiry.value].at <= e.at)
    ensures ExpiriesOk(log + [e], timeout, now) && RemovalsOk(log + [e], now)
  {
    var more := log + [e];
    forall i | 0 <= i < |more| && more[i].Expired?
      ensures Idle(more, timeout, i, more[i].id, more[i].at)
    {
      assert i < |log| ==> more[i] == log[i];
    }
    forall i | 0 <= i < |more| && more[i].Removed? && TimedOut(more[i].closer)
      ensures IsExpiry(more, more[i].closer.expiry.value, i, more[i].closer.sock)
      ensures more[more[i].closer.expiry.value].at <= more[i].at
    {
      assert i < |log| ==> more[i] == log[i];
    }
  }

  lemma FetchStays(log: seq<Entry>, e: Entry, id: nat, k: Sock)
    requires FetchOk(log, id, k)
    ensures FetchOk(log + [e], id, k)
  {
  }

  /** One entry about the socket `id` is added, and the socket changes. */
  lemma EntryKeepsLives(s: State, id: nat, k: Sock, e: Entry, t: State)
    requires Lives(s) && id < |s.socks| && e.id == id && !e.Touched?
    requires k.conn == s.socks[id].conn && k.deadline == s.socks[id].deadline && FetchOk(s.log + [e], id, k)
    requires e.Expired? ==> Idle(s.log, s.timeout, |s.log|, id, e.at) && e.at <= s.now
    requires e.Removed? ==>
               && e.at <= s.now
               && (TimedOut(e.closer) ==>
                     && IsExpiry(s.log, e.closer.expiry.value, |s.log|, e.closer.sock)
                     && s.log[e.closer.expiry.value].at <= e.at)
    requires t.timeout == s.timeout && t.now == s.now && TableOk(t)
    requires t.socks == s.socks[id := k] && t.log == s.log + [e]
    ensures Lives(t)
  {
    OldEntriesStay(s.log, e, s.timeout, s.now);
    forall j | 0 <= j < |t.socks|
      ensures DeadlineOk(t.log, t.timeout, t.now, j, t.socks[j]) && FetchOk(t.log, j, t.socks[j])
    {
      DeadlineStays(s.log, e, s.timeout, s.now, j, s.socks[j]);
      FetchStays(s.log, e, j, s.socks[j]);
    }
  }

  lemma TouchesLives(s: State, id: nat)
    requires Lives(s) && id < |s.socks|
    ensures Lives(Touches(s, id))
  {
    var t := Touches(s, id);
    var e := Touched(id, s.now);
    OldEntriesStay(s.log, e, s.timeout, s.now);
    DeadlineMoves(s.log, s.timeout, s.now, id, s.socks[id]);
    forall j | 0 <= j < |t.socks|
      ensures DeadlineOk(t.log, t.timeout, t.now, j, t.socks[j]) && FetchOk(t.log, j, t.socks[j])
    {
      FetchStays(s.log, e, j, s.socks[j]);
      if j != id {
        DeadlineStays(s.log, e, s.timeout, s.now, j, s.socks[j]);
      }
    }
  }

  lemma OpensLives(s: State, conn: ConnId)
    requires Lives(s)
    ensures Lives(Opens(s, conn))
  {
  }

  lemma TickLives(s: State, passed: nat)
    requires Lives(s)
    ensures Lives(s.(now := s.now + passed))
  {
  }

  lemma InsertsLives(s: State, id: nat)
    requires Lives(s) && id < |s.socks|
    ensures Lives(Inserts(s, id))
  {
  }

  lemma GoesLives(s: State, id: nat, pc: FetchPc)
    requires Lives(s) && id < |s.socks| && FetchOk(s.log, id, s.socks[id].(fetch := pc))
    ensures Lives(Goes(s, id, pc))
  {
  }

  lemma ExpiresLives(s: State, id: nat)
    requires Lives(s) && Enabled(s, Expire(id))
    ensures Lives(Expires(s, id))
  {
    var t := Expires(s, id);
    EntryKeepsLives(s, id, t.socks[id], Expired(id, s.now), t);
  }

  lemma ClosesLives(s: State, conn: ConnId, closer: Closer)
    requires Lives(s)
    requires TimedOut(closer) ==> IsExpiry(s.log, closer.expiry.value, |s.log|, closer.sock)
    ensures Lives(Closes(s, conn, closer))
  {
    if conn in s.udpConns {
      var t := Closes(s, conn, closer);
      var id := s.udpConns[conn];
      FetchStays(s.log, t.log[|s.log|], id, s.socks[id]);
      EntryKeepsLives(s, id, t.socks[id], t.log[|s.log|], t);
    }
  }

  lemma FetchCloseLives(s: State, id: nat)
    requires Lives(s) && Enabled(s, FetchClose(id))
    ensures Lives(Step(s, FetchClose(id)))
  {
    var closer := Fetch(id, s.socks[id].fetch.expiry);
    ClosesLives(s, s.socks[id].conn, closer);
    GoesLives(Closes(s, s.socks[id].conn, closer), id, Finished);
  }

  lemma CountsLives(s: State, id: nat)
    requires Lives(s) && Enabled(s, Count(id))
    ensures Lives(Counts(s, id))
  {
    var t := Counts(s, id);
    EntryKeepsLives(s, id, t.socks[id], t.log[|s.log|], t);
  }

  lemma UploadsLives(s: State, id: nat, n: nat)
    requires Lives(s) && id < |s.socks|
    ensures Lives(Uploads(s, id, n))
  {
    var t := Uploads(s, id, n);
    FetchStays(s.log, Up(id, n), id, s.socks[id]);
    EntryKeepsLives(s, id, t.socks[id], Up(id, n), t);
  }

  lemma ResolvesLives(s: State, call: nat)
    requires Lives(s) && Enabled(s, Resolved(call))
    ensures Lives(CallResolves(s, call))
  {
    var id := s.calls[call].sock;
    FetchStays(s.log, Answered(id), id, s.socks[id]);
    EntryKeepsLives(s, id, s.socks[id], Answered(id), CallResolves(s, call));
  }

  lemma ArmLives(s: State, id: nat)
    requires Lives(s) && Enabled(s, Arm(id))
    ensures Lives(Step(s, Arm(id)))
  {
    TouchesLives(s, id);
    GoesLives(Touches(s, id), id, Reading);
  }

  lemma FetchStepLives(s: State, e: Event)
    requires Lives(s) && Enabled(s, e) && IsFetch(e)
    ensures Lives(Step(s, e))
  {
    match e
    case Arm(id) => ArmLives(s, id);
    case ReadOk(id, n) => GoesLives(s, id, Counting(n));
    case Expire(id) => ExpiresLives(s, id);
    case ReadFails(id) => GoesLives(s, id, Exiting(None));
    case Count(id) => CountsLives(s, id);
    case Deliver(id, ok) => GoesLives(s, id, if ok then Arming else Exiting(None));
    case FetchClose(id) => FetchCloseLives(s, id);
  }

  lemma StepLives(s: State, e: Event)
    requires Lives(s) && Enabled(s, e)
    ensures Lives(Step(s, e))
  {
    if IsFetch(e) {
      FetchStepLives(s, e);
    } else {
      match e
      case Tick(passed) => TickLives(s, passed);
      case Open(conn) => OpensLives(s, conn);
      case Insert(id) => InsertsLives(s, id);
      case Touch(call) => TouchesLives(s, s.calls[call].sock);
      case Send(call) => UploadsLives(s, s.calls[call].sock, s.calls[call].n);
      case Resolved(call) => ResolvesLives(s, call);
      case CloseBody(call) => ClosesLives(s, s.calls[call].conn, s.calls[call].closer);
      case _ =>
    }
  }

  // Who closes whom

  /** A fetch goroutine closes a socket of its own connection. */
  predicate ClosersOk(log: seq<Entry>, socks: seq<Sock>) {
    forall i :: 0 <= i < |log| && log[i].Removed? && log[i].closer.Fetch? ==>
      && log[i].closer.sock < |socks| && log[i].id < |socks|
      && socks[log[i].closer.sock].conn == socks[log[i].id].conn
  }

  /** Sockets stay, with their connections. */
  predicate SocksStay(before: seq<Sock>, after: seq<Sock>) {
    |before| <= |after| && forall id :: 0 <= id < |before| ==> after[id].conn == before[id].conn
  }

  lemma StepKeepsSocks(s: State, e: Event)
    requires Enabled(s, e)
    ensures SocksStay(s.socks, Step(s, e).socks)
  {
  }

  /** A step logs at most one removal, as its last entry; it is made by a goroutine only in FetchClose. */
  lemma StepRemoves(s: State, e: Event)
    requires Enabled(s, e)
    ensures
      var t := Step(s, e);
      && s.log <= t.log
      && (forall i :: |s.log| <= i < |t.log| && t.log[i].Removed? && t.log[i].closer.Fetch? ==>
            && e.FetchClose? && t.log[i].closer.sock == e.id
            && s.socks[e.id].conn in s.udpConns && t.log[i].id == s.udpConns[s.socks[e.id].conn])
  {
  }

  lemma StepKeepsClosers(s: State, e: Event)
    requires ClosersOk(s.log, s.socks) && Enabled(s, e)
    ensures ClosersOk(Step(s, e).log, Step(s, e).socks)
  {
    StepKeepsSocks(s, e);
    StepRemoves(s, e);
    var t := Step(s, e);
    forall i | 0 <= i < |t.log| && t.log[i].Removed? && t.log[i].closer.Fetch?
      ensures
        && t.log[i].closer.sock < |t.socks| && t.log[i].id < |t.socks|
        && t.socks[t.log[i].closer.sock].conn == t.socks[t.log[i].id].conn
    {
      assert i < |s.log| ==> t.log[i] == s.log[i];
    }
  }

  // Runs

  predicate Inv(s: State) {
    Conserves(s) && Truthful(s.log) && Lives(s) && ClosersOk(s.log, s.socks)
  }

  lemma StepKeepsInv(s: State, e: Event)
    requires Inv(s) && Enabled(s, e)
    ensures Inv(Step(s, e))
  {
    StepConserves(s, e);
    StepKeepsTruth(s, e);
    StepLives(s, e);
    StepKeepsClosers(s, e);
  }

  lemma {:induction false} RunKeepsInv(s: State, es: seq<Event>)
    requires Inv(s) && Executable(s, es)
    ensures Inv(Exec(s, es))
    decreases |es|
  {
    if es != [] {
      StepKeepsInv(s, es[0]);
      RunKeepsInv(Step(s, es[0]), es[1..]);
    }
  }

  ghost predicate Reachable(s: State) {
    exists timeout: int, now: int, es: seq<Event> ::
      Executable(Initial(timeout, now), es) && s == Exec(Initial(timeout, now), es)
  }

  lemma ReachableInv(s: State)
    requires Reachable(s)
    ensures Inv(s)
  {
    var timeout: int, now: int, es: seq<Event> :|
      Executable(Initial(timeout, now), es) && s == Exec(Initial(timeout, now), es);
    RunKeepsInv(Initial(timeout, now), es);
  }

  /** Conservation, in every interleaving: a socket that was opened is in exactly one of four places, and
      it was closed just if it was reported, once. */
  lemma SocketsAreConserved(s: State, id: nat)
    requires Reachable(s) && id < |s.socks|
    ensures
      var k := s.socks[id];
      && One(k.fetch.NotStarted?) + One(Tabled(s.udpConns, k.conn, id)) + One(id in s.displaced) + One(!k.open) == 1
      && Removals(s.log, id) == One(!k.open)
  {
    ReachableInv(s);
    assert Placed(s.udpConns, s.displaced, s.log, id, s.socks[id]);
  }

  /** If no connection is connected twice, no socket is lost: it is about to enter the table, in the
      table, or closed and reported once. */
  lemma NothingIsLost(s: State, id: nat)
    requires Reachable(s) && id < |s.socks|
    requires forall i, j :: 0 <= i < j < |s.socks| ==> s.socks[i].conn != s.socks[j].conn
    ensures s.displaced == {}
    ensures s.socks[id].fetch.NotStarted? || Tabled(s.udpConns, s.socks[id].conn, id) || Removals(s.log, id) == 1
  {
    ReachableInv(s);
    assert Placed(s.udpConns, s.displaced, s.log, id, s.socks[id]);
  }

  /** What the listener is told about an association is what was counted until then, exactly. */
  lemma ReportsAreTotals(s: State, i: nat)
    requires Reachable(s) && i < |s.log| && s.log[i].Removed?
    ensures s.log[i].upload == Uploaded(s.log[..i], s.log[i].id)
    ensures s.log[i].download == Downloaded(s.log[..i], s.log[i].id)
  {
    ReachableInv(s);
  }

  /** A connected socket's deadline is its last activity plus the timeout. */
  lemma DeadlineIsLastActivity(s: State, id: nat)
    requires Reachable(s) && id < |s.socks| && s.socks[id].deadline.Some?
    ensures
      var last := s.socks[id].deadline.value - s.timeout;
      && Touched(id, last) in s.log
      && (forall i :: 0 <= i < |s.log| && s.log[i].Touched? && s.log[i].id == id ==> s.log[i].at <= last <= s.now)
  {
    ReachableInv(s);
    assert DeadlineOk(s.log, s.timeout, s.now, id, s.socks[id]);
  }

  /** No read times out before the socket has been idle for the timeout. */
  lemma ExpiryNeedsIdleness(s: State, i: nat)
    requires Reachable(s) && i < |s.log| && s.log[i].Expired?
    ensures Idle(s.log, s.timeout, i, s.log[i].id, s.log[i].at)
  {
    ReachableInv(s);
  }

  /** Whoever's read has ended, Close removes an idle association if and only if the deadline of that
      association has passed at that moment (or has never been set). */
  lemma RemovalNeedsPassedDeadline(s: State, id: nat)
    requires Reachable(s) && Enabled(s, FetchClose(id)) && s.socks[id].conn in s.udpConns
    ensures
      var (t, r) := (Step(s, FetchClose(id)), s.udpConns[s.socks[id].conn]);
      && t.log == s.log + [Removed(r, s.now, s.socks[r].upload, s.socks[r].download,
                                   Fetch(id, s.socks[id].fetch.expiry))]
      && (Idle(t.log, s.timeout, |s.log|, r, s.now) <==>
          s.socks[r].deadline.None? || s.socks[r].deadline.value <= s.now)
  {
    ReachableInv(s);
    var r := s.udpConns[s.socks[id].conn];
    assert DeadlineOk(s.log, s.timeout, s.now, r, s.socks[r]);
    var t := Step(s, FetchClose(id));
    assert forall i :: 0 <= i < |s.log| ==> t.log[i] == s.log[i];
  }

  /** An association removed by a goroutine whose read has timed out: if the read was its own, it has been
      idle for the timeout if and only if ReceiveTo did not come between that read and the removal, or came
      a whole timeout before the removal.  It may be another's read only if the connection was connected
      twice. */
  lemma RemovalNeedsIdleness(s: State, i: nat)
    requires Reachable(s) && i < |s.log| && s.log[i].Removed? && TimedOut(s.log[i].closer)
    ensures
      var id, at, closer := s.log[i].id, s.log[i].at, s.log[i].closer;
      && IsExpiry(s.log, closer.expiry.value, i, closer.sock)
      && (closer.sock == id ==>
            (Idle(s.log, s.timeout, i, id, at) <==>
             forall j :: closer.expiry.value < j < i && s.log[j].Touched? && s.log[j].id == id ==>
               s.log[j].at + s.timeout <= at))
      && (closer.sock != id ==> ConnectedTwice(s.socks, id, closer.sock))
  {
    ReachableInv(s);
    assert IsExpiry(s.log, s.log[i].closer.expiry.value, i, s.log[i].closer.sock);
  }

  predicate ConnectedTwice(socks: seq<Sock>, id: nat, other: nat) {
    id < |socks| && other < |socks| && id != other && socks[id].conn == socks[other].conn
  }
}
