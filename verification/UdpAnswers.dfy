/** When doDoh closes an association: if nothing but DNS had passed through it when the answer came, and
    only then. */
module UdpAnswers {
  import opened UdpProtocol
  import opened UdpTheorems

  /** No traffic of the socket is in the log. */
  predicate Unused(log: seq<Entry>, id: nat) {
    Uploaded(log, id) == 0 && Downloaded(log, id) == 0
  }

  /** If doDoh wants the connection closed, it had an answer for a socket of that connection, and the socket
      was unused at that moment. */
  predicate FromAnswer(log: seq<Entry>, socks: seq<Sock>, conn: ConnId, closer: Closer) {
    closer.Doh? ==>
      && closer.sock < |socks| && socks[closer.sock].conn == conn
      && closer.answer < |log| && log[closer.answer] == Answered(closer.sock)
      && Unused(log[..closer.answer], closer.sock)
  }

  predicate CloseCallsOk(s: State) {
    forall call :: call in s.calls && s.calls[call].Closing? ==>
      FromAnswer(s.log, s.socks, s.calls[call].conn, s.calls[call].closer)
  }

  predicate ReportOk(log: seq<Entry>, socks: seq<Sock>, i: nat)
    requires i < |log| && log[i].Removed?
  {
    log[i].id < |socks| && FromAnswer(log[..i], socks, socks[log[i].id].conn, log[i].closer)
  }

  predicate AnswersOk(s: State) {
    CloseCallsOk(s) && forall i :: 0 <= i < |s.log| && s.log[i].Removed? ==> ReportOk(s.log, s.socks, i)
  }

  /** What was answered stays so. */
  lemma AnswerStays(log: seq<Entry>, more: seq<Entry>, socks: seq<Sock>, after: seq<Sock>, conn: ConnId, c: Closer)
    requires FromAnswer(log, socks, conn, c) && log <= more && SocksStay(socks, after)
    ensures FromAnswer(more, after, conn, c)
  {
    if c.Doh? {
      assert more[..c.answer] == log[..c.answer];
    }
  }

  /** Where the entries and the calls of a step come from. */
  lemma StepAdds(s: State, e: Event)
    requires Enabled(s, e)
    ensures s.log <= Step(s, e).log && SocksStay(s.socks, Step(s, e).socks)
  {
    StepRemoves(s, e);
    StepKeepsSocks(s, e);
  }

  lemma ResolvedCall(s: State, call: nat)
    requires Conserves(s) && Enabled(s, Resolved(call))
    ensures
      var t, id := Step(s, Resolved(call)), s.calls[call].sock;
      call in t.calls ==>
        && t.calls[call].Closing?
        && FromAnswer(t.log, t.socks, t.calls[call].conn, t.calls[call].closer)
  {
    var t, id := Step(s, Resolved(call)), s.calls[call].sock;
    assert Counted(s.log, id, s.socks[id]);
    assert t.log[..|s.log|] == s.log;
  }

  /** The only new closing calls are those of callers and of answers. */
  lemma NewClosings(s: State, e: Event, call: nat)
    requires Enabled(s, e) && call in Step(s, e).calls && Step(s, e).calls[call].Closing?
    ensures
      || (call in s.calls && s.calls[call] == Step(s, e).calls[call])
      || Step(s, e).calls[call].closer.Caller?
      || e == Resolved(call)
  {
  }

  lemma StepKeepsCloseCalls(s: State, e: Event)
    requires Conserves(s) && CloseCallsOk(s) && Enabled(s, e)
    ensures CloseCallsOk(Step(s, e))
  {
    var t := Step(s, e);
    StepAdds(s, e);
    forall call | call in t.calls && t.calls[call].Closing?
      ensures FromAnswer(t.log, t.socks, t.calls[call].conn, t.calls[call].closer)
    {
      NewClosings(s, e, call);
      if e == Resolved(call) {
        ResolvedCall(s, call);
      } else if call in s.calls && s.calls[call] == t.calls[call] {
        AnswerStays(s.log, t.log, s.socks, t.socks, t.calls[call].conn, t.calls[call].closer);
      }
    }
  }

  /** A step that removes a socket for doDoh is the closing call's. */
  lemma NewReport(s: State, e: Event, i: nat)
    requires Conserves(s) && Enabled(s, e) && |s.log| <= i < |Step(s, e).log|
    requires Step(s, e).log[i].Removed? && Step(s, e).log[i].closer.Doh?
    ensures i == |s.log| && Step(s, e).log[i].id < |s.socks|
    ensures e.CloseBody? && s.calls[e.call].closer == Step(s, e).log[i].closer
    ensures s.calls[e.call].conn == s.socks[Step(s, e).log[i].id].conn
  {
  }

  lemma StepKeepsReports(s: State, e: Event)
    requires Conserves(s) && AnswersOk(s) && Enabled(s, e) && Conserves(Step(s, e))
    ensures forall i :: 0 <= i < |Step(s, e).log| && Step(s, e).log[i].Removed? ==>
              ReportOk(Step(s, e).log, Step(s, e).socks, i)
  {
    var t := Step(s, e);
    StepAdds(s, e);
    forall i | 0 <= i < |t.log| && t.log[i].Removed?
      ensures ReportOk(t.log, t.socks, i)
    {
      if i < |s.log| {
        assert t.log[..i] == s.log[..i];
        var conn := s.socks[s.log[i].id].conn;
        assert ReportOk(s.log, s.socks, i);
        AnswerStays(s.log[..i], t.log[..i], s.socks, t.socks, conn, s.log[i].closer);
      } else if t.log[i].closer.Doh? {
        NewReport(s, e, i);
        assert t.log[..i] == s.log;
        AnswerStays(s.log, s.log, s.socks, t.socks, s.calls[e.call].conn, t.log[i].closer);
      }
    }
  }

  lemma StepKeepsAnswers(s: State, e: Event)
    requires Conserves(s) && AnswersOk(s) && Enabled(s, e)
    ensures AnswersOk(Step(s, e))
  {
    StepConserves(s, e);
    StepKeepsCloseCalls(s, e);
    StepKeepsReports(s, e);
  }

  lemma {:induction false} RunKeepsAnswers(s: State, es: seq<Event>)
    requires Inv(s) && AnswersOk(s) && Executable(s, es)
    ensures AnswersOk(Exec(s, es))
    decreases |es|
  {
    if es != [] {
      StepKeepsInv(s, es[0]);
      StepKeepsAnswers(s, es[0]);
      RunKeepsAnswers(Step(s, es[0]), es[1..]);
    }
  }

  lemma ReachableAnswers(s: State)
    requires Reachable(s)
    ensures AnswersOk(s)
  {
    var timeout: int, now: int, es: seq<Event> :|
      Executable(Initial(timeout, now), es) && s == Exec(Initial(timeout, now), es);
    RunKeepsAnswers(Initial(timeout, now), es);
  }

  /** An association that was removed for doDoh belongs to the connection of a DNS query, whose socket had
      neither sent nor received anything else when the answer came. */
  lemma DohClosesUnused(s: State, i: nat)
    requires Reachable(s) && i < |s.log| && s.log[i].Removed? && s.log[i].closer.Doh?
    ensures
      var (id, Doh(sock, k)) := (s.log[i].id, s.log[i].closer);
      && k < i && s.log[k] == Answered(sock)
      && Uploaded(s.log[..k], sock) == 0 && Downloaded(s.log[..k], sock) == 0
      && id < |s.socks| && sock < |s.socks| && s.socks[id].conn == s.socks[sock].conn
  {
    ReachableAnswers(s);
    assert ReportOk(s.log, s.socks, i);
    assert s.log[..i][..s.log[i].closer.answer] == s.log[..s.log[i].closer.answer];
  }

  /** An answer leaves a call that is to close the connection of its socket if the socket is unused, and
      leaves nothing behind if it is not. */
  lemma AnswerDecides(s: State, call: nat)
    requires Reachable(s) && Enabled(s, Resolved(call))
    ensures
      var (id, t) := (s.calls[call].sock, Step(s, Resolved(call)));
      && t.log == s.log + [Answered(id)] && t.socks == s.socks && t.udpConns == s.udpConns
      && (call in t.calls <==> Uploaded(s.log, id) == 0 && Downloaded(s.log, id) == 0)
      && (call in t.calls ==> t.calls[call] == Closing(s.socks[id].conn, Doh(id, |s.log|)))
      && t.calls - {call} == s.calls - {call}
  {
    ReachableInv(s);
    assert Counted(s.log, s.calls[call].sock, s.socks[s.calls[call].sock]);
  }

  /** Nothing but its own run ends a call that is to close a connection. */
  lemma {:induction false} CloseStaysDue(s: State, es: seq<Event>, call: nat)
    requires Executable(s, es) && call in s.calls && s.calls[call].Closing? && CloseBody(call) !in es
    ensures call in Exec(s, es).calls && Exec(s, es).calls[call] == s.calls[call]
    decreases |es|
  {
    if es != [] {
      assert es[0] in es;
      CloseStaysDue(Step(s, es[0]), es[1..], call);
    }
  }

  /** When that call runs, the connection has no association any more: the one it had is closed, and its
      totals are reported once. */
  lemma CloseRuns(s: State, call: nat)
    requires Reachable(s) && Enabled(s, CloseBody(call))
    ensures
      var (Closing(conn, closer), t) := (s.calls[call], Step(s, CloseBody(call)));
      && conn !in t.udpConns && call !in t.calls
      && (conn !in s.udpConns ==> t == s.(calls := t.calls))
      && (conn in s.udpConns ==>
            var id := s.udpConns[conn];
            && !t.socks[id].open && t.socks[id].conn == conn
            && t.log == s.log + [Removed(id, s.now, Uploaded(s.log, id), Downloaded(s.log, id), closer)])
  {
    ReachableInv(s);
    var conn := s.calls[call].conn;
    if conn in s.udpConns {
      assert Counted(s.log, s.udpConns[conn], s.socks[s.udpConns[conn]]);
    }
  }

  // Mixed use

  lemma {:induction false} CountsAdd(a: seq<Entry>, b: seq<Entry>, id: nat)
    ensures Uploaded(a + b, id) == Uploaded(a, id) + Uploaded(b, id)
    ensures Downloaded(a + b, id) == Downloaded(a, id) + Downloaded(b, id)
    decreases |b|
  {
    if b == [] {
      assert a + b == a;
    } else {
      var init := b[..|b| - 1];
      CountsAdd(a, init, id);
      assert (a + b)[..|a + b| - 1] == a + init;
    }
  }

  /** Between the answer and the removal other traffic can come.  What is then reported of the socket is
      that traffic, exactly: a socket that is closed for doDoh was used for DNS alone just if the report is
      empty. */
  lemma DohReportsWhatCameLater(s: State, i: nat)
    requires Reachable(s) && i < |s.log| && s.log[i].Removed? && s.log[i].closer.Doh?
    requires s.log[i].id == s.log[i].closer.sock
    ensures s.log[i].closer.answer < i
    ensures s.log[i].upload == Uploaded(s.log[s.log[i].closer.answer..i], s.log[i].id)
    ensures s.log[i].download == Downloaded(s.log[s.log[i].closer.answer..i], s.log[i].id)
  {
    DohClosesUnused(s, i);
    ReportsAreTotals(s, i);
    var k := s.log[i].closer.answer;
    CountsAdd(s.log[..k], s.log[k..i], s.log[i].id);
    assert s.log[..k] + s.log[k..i] == s.log[..i];
  }
}
