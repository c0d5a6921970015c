/** The `udpHandler` of intra/udp.go and its trackers, updated in place.  A method is one step of
    UdpProtocol, so that the theorems about its runs are theorems about calls of these methods. */
module UdpHandlerObject {
  import opened Common
  import opened UdpProtocol
  import opened UdpTheorems

  /** A tracker, with its socket and the position of its fetch goroutine. */
  class Tracker {
    const id: nat
    const conn: ConnId
    var open: bool
    var deadline: Option<int>
    var upload: nat
    var download: nat
    var fetch: FetchPc

    ghost function View(): Sock
      reads this
    {
      Sock(conn, open, deadline, upload, download, fetch)
    }

    constructor (id: nat, conn: ConnId)
      ensures this.id == id && View() == Sock(conn, true, None, 0, 0, NotStarted)
    {
      this.id, this.conn := id, conn;
      open, deadline, upload, download, fetch := true, None, 0, 0, NotStarted;
    }
  }

  class UdpHandler {
    const timeout: int
    var now: int
    var udpConns: map<ConnId, Tracker>
    var trackers: seq<Tracker>  // the trackers, which goroutines hold on to
    var calls: map<nat, Call>
    var log: seq<Entry>
    ghost var displaced: set<nat>

    ghost predicate Valid()
      reads this
    {
      && (forall i :: 0 <= i < |trackers| ==> trackers[i].id == i)
      && (forall c :: c in udpConns ==> udpConns[c].id < |trackers| && trackers[udpConns[c].id] == udpConns[c])
    }

    ghost function Table(): map<ConnId, nat>
      reads this
    {
      map c | c in udpConns :: udpConns[c].id
    }

    ghost function Socks(): seq<Sock>
      reads this, trackers
    {
      seq(|trackers|, i requires 0 <= i < |trackers| reads trackers, this => trackers[i].View())
    }

    ghost function View(): State
      reads this, trackers
    {
      State(timeout, now, Table(), Socks(), calls, log, displaced)
    }

    constructor (timeout: int, now: int)
      ensures Valid() && View() == Initial(timeout, now) && trackers == []
    {
      this.timeout, this.now := timeout, now;
      udpConns, trackers, calls, log, displaced := map[], [], map[], [], {};
    }

    // Connect

    method Listen(conn: ConnId)
      requires Valid()
      modifies this`trackers
      ensures Valid() && View() == Opens(old(View()), conn)
      ensures |trackers| == |old(trackers)| + 1 && trackers[..|old(trackers)|] == old(trackers)
      ensures fresh(trackers[|old(trackers)|])
    {
      var t := new Tracker(|trackers|, conn);
      trackers := trackers + [t];
      assert Socks() == old(Socks()) + [t.View()];
      assert Table() == old(Table());
    }

    method Insert(t: Tracker)
      requires Valid() && t in trackers
      modifies this`udpConns, this`displaced, t`fetch
      ensures Valid() && View() == Inserts(old(View()), t.id)
    {
      if t.conn in udpConns {
        displaced := displaced + {udpConns[t.conn].id};
      }
      udpConns := udpConns[t.conn := t];
      t.fetch := Arming;
      assert Socks() == old(Socks())[t.id := t.View()];
      assert Table() == old(Table())[t.conn := t.id];
    }

    // fetchUDPInput

    method SetPc(t: Tracker, pc: FetchPc)
      requires Valid() && t in trackers
      modifies t`fetch
      ensures View() == Goes(old(View()), t.id, pc)
    {
      t.fetch := pc;
      assert Socks() == old(Socks())[t.id := t.View()];
      assert Table() == old(Table());
    }

    method SetDeadline(t: Tracker)
      requires Valid() && t in trackers
      modifies this`log, t`deadline
      ensures View() == Touches(old(View()), t.id)
    {
      t.deadline := Some(now + timeout);
      log := log + [Touched(t.id, now)];
      assert Socks() == old(Socks())[t.id := t.View()];
      assert Table() == old(Table());
    }

    method ReadExpires(t: Tracker)
      requires Valid() && t in trackers
      modifies this`log, t`fetch
      ensures View() == Expires(old(View()), t.id)
    {
      t.fetch := Exiting(Some(|log|));
      log := log + [Expired(t.id, now)];
      assert Socks() == old(Socks())[t.id := t.View()];
      assert Table() == old(Table());
    }

    method CountDownload(t: Tracker)
      requires Valid() && t in trackers && t.fetch.Counting?
      modifies this`log, t`download, t`fetch
      ensures View() == Counts(old(View()), t.id)
    {
      var n := t.fetch.n;
      t.download := t.download + n;
      t.fetch := Delivering;
      log := log + [Down(t.id, n)];
      assert Socks() == old(Socks())[t.id := t.View()];
      assert Table() == old(Table());
    }

    // Close

    method CloseLocked(conn: ConnId, closer: Closer)
      requires Valid()
      modifies this`udpConns, this`log, trackers`open
      ensures Valid() && View() == Closes(old(View()), conn, closer)
    {
      if conn in udpConns {
        var t := udpConns[conn];
        assert t == trackers[t.id];
        t.open := false;
        log := log + [Removed(t.id, now, t.upload, t.download, closer)];
        udpConns := udpConns - {conn};
        assert Socks() == old(Socks())[t.id := t.View()];
        assert Table() == old(Table()) - {conn};
      }
    }

    method FetchExits(t: Tracker)
      requires Valid() && t in trackers && t.fetch.Exiting?
      modifies this`udpConns, this`log, trackers`open, t`fetch
      ensures Valid()
      ensures View() == Goes(Closes(old(View()), t.conn, Fetch(t.id, old(t.fetch).expiry)), t.id, Finished)
    {
      CloseLocked(t.conn, Fetch(t.id, t.fetch.expiry));
      SetPc(t, Finished);
    }

    // ReceiveTo and doDoh

    method ReceiveLookup(call: nat, conn: ConnId, n: nat, dns: bool)
      requires Valid()
      modifies this`calls
      ensures Valid() && View() == Receives(old(View()), call, conn, n, dns)
    {
      if conn in udpConns {
        calls := calls[call := Received(udpConns[conn].id, n, dns)];
      }
      assert Socks() == old(Socks());
    }

    method ReceiveTouches(call: nat)
      requires Valid() && Refers(View(), call) && calls[call].Received?
      modifies this`calls, this`log, trackers`deadline
      ensures Valid() && View() == CallTouches(old(View()), call)
    {
      var Received(id, n, dns) := calls[call];
      SetDeadline(trackers[id]);
      calls := calls[call := if dns then Resolving(id) else Sending(id, n)];
      assert Socks() == old(Socks())[id := trackers[id].View()];
    }

    method ReceiveSends(call: nat)
      requires Valid() && Refers(View(), call) && calls[call].Sending?
      modifies this`calls, this`log, trackers`upload
      ensures Valid() && View() == CallSends(old(View()), call)
    {
      var Sending(id, n) := calls[call];
      var t := trackers[id];
      t.upload := t.upload + n;
      log := log + [Up(id, n)];
      calls := calls - {call};
      assert Socks() == old(Socks())[id := t.View()];
      assert Table() == old(Table());
    }

    method DohReturns(call: nat)
      requires Valid() && Refers(View(), call) && calls[call].Resolving?
      modifies this`calls, this`log
      ensures Valid() && View() == CallResolves(old(View()), call)
    {
      var t := trackers[calls[call].sock];
      if t.upload == 0 && t.download == 0 {
        calls := calls[call := Closing(t.conn, Doh(t.id, |log|))];
      } else {
        calls := calls - {call};
      }
      log := log + [Answered(t.id)];
      assert Socks() == old(Socks());
    }

    method CloseRuns(call: nat)
      requires Valid() && call in calls && calls[call].Closing?
      modifies this`calls, this`udpConns, this`log, trackers`open
      ensures Valid()
      ensures
        var Closing(conn, closer) := old(calls)[call];
        View() == Closes(old(View()), conn, closer).(calls := old(calls) - {call})
    {
      CloseLocked(calls[call].conn, calls[call].closer);
      ghost var socks := Socks();
      calls := calls - {call};
      assert Socks() == socks;
    }

    method Passes(passed: nat)
      requires Valid()
      modifies this`now
      ensures Valid() && View() == old(View()).(now := old(now) + passed)
    {
      now := now + passed;
      assert Socks() == old(Socks());
    }

    method CloseCalled(call: nat, conn: ConnId)
      requires Valid()
      modifies this`calls
      ensures Valid() && View() == old(View()).(calls := old(calls)[call := Closing(conn, Caller)])
    {
      calls := calls[call := Closing(conn, Caller)];
      assert Socks() == old(Socks());
    }

    // Any step of the machine, made on the object

    method PerformFetch(e: Event)
      requires Valid() && IsFetch(e) && Enabled(View(), e)
      modifies this`udpConns, this`log, trackers
      ensures Valid() && View() == Step(old(View()), e)
    {
      var t := trackers[e.id];
      assert t.id == e.id && View().socks[e.id] == t.View();
      match e
      case Arm(_) =>
        SetDeadline(t);
        SetPc(t, Reading);
      case ReadOk(_, n) => SetPc(t, Counting(n));
      case Expire(_) => ReadExpires(t);
      case ReadFails(_) => SetPc(t, Exiting(None));
      case Count(_) => CountDownload(t);
      case Deliver(_, ok) => SetPc(t, if ok then Arming else Exiting(None));
      case FetchClose(_) => FetchExits(t);
    }

    method Perform(e: Event)
      requires Valid() && Enabled(View(), e)
      modifies this, trackers
      ensures Valid() && View() == Step(old(View()), e)
      ensures old(trackers) <= trackers && forall i :: |old(trackers)| <= i < |trackers| ==> fresh(trackers[i])
    {
      if IsFetch(e) {
        PerformFetch(e);
        return;
      }
      match e
      case Tick(passed) => Passes(passed);
      case Open(conn) => Listen(conn);
      case Insert(id) => Insert(trackers[id]);
      case Receive(call, conn, n, dns) => ReceiveLookup(call, conn, n, dns);
      case Touch(call) => ReceiveTouches(call);
      case Send(call) => ReceiveSends(call);
      case Resolved(call) => DohReturns(call);
      case CloseCall(call, conn) => CloseCalled(call, conn);
      case CloseBody(call) => CloseRuns(call);
    }
  }

  /** Every run of the machine is a run of the object, which therefore keeps the promises that
      UdpTheorems makes of reachable states. */
  method Run(timeout: int, now: int, es: seq<Event>) returns (h: UdpHandler)
    requires Executable(Initial(timeout, now), es)
    ensures fresh(h) && h.Valid() && h.View() == Exec(Initial(timeout, now), es) && Reachable(h.View())
  {
    h := new UdpHandler(timeout, now);
    for i := 0 to |es|
      invariant fresh(h) && h.Valid() && forall j :: 0 <= j < |h.trackers| ==> fresh(h.trackers[j])
      invariant Executable(h.View(), es[i..]) && Exec(h.View(), es[i..]) == Exec(Initial(timeout, now), es)
    {
      assert es[i..][1..] == es[i + 1..];
      h.Perform(es[i]);
    }
  }
}
