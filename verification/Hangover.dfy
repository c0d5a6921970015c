/** The SERVFAIL hangover of intra/doh/doh.go over whole runs: any number of queries at a time, and a
    clock that never goes back.  The lock makes each check (:252-254) and each record of a failure
    (:296-298) one step. */
module Hangover {
  import opened Common
  import opened DohTransport

  /** A query that passed the check at time `checked`, or is waiting for its reply. */
  datatype Active = Admitted(checked: int) | InFlight(checked: int)

  /** What happened, in order. */
  datatype Entry =
    | Checked(id: nat, at: int, admitted: bool)
    | Ended(id: nat, at: int, status: Status, sent: bool)

  datatype State = State(now: int, expiration: int, active: map<nat, Active>, log: seq<Entry>, overlapped: bool)

  function Initial(now: int): State {
    State(now, now, map[], [], false)
  }

  datatype Event =
    | Tick(passed: nat)
    | Check(id: nat)
    | Send(id: nat)
    | Finish(id: nat, status: Status)

  predicate Enabled(s: State, e: Event) {
    match e
    case Tick(_) => true
    case Check(id) => id !in s.active
    case Send(id) => id in s.active && s.active[id].Admitted?
    case Finish(id, status) => id in s.active && (status == InternalError || s.active[id].InFlight?)
  }

  function Step(s: State, e: Event): State
    requires Enabled(s, e)
  {
    match e
    case Tick(passed) => s.(now := s.now + passed)
    case Check(id) =>
      if s.now < s.expiration then s.(log := s.log + [Checked(id, s.now, false)])
      else s.(active := s.active[id := Admitted(s.now)],
              log := s.log + [Checked(id, s.now, true)],
              overlapped := s.overlapped || s.active != map[])
    case Send(id) => s.(active := s.active[id := InFlight(s.active[id].checked)])
    case Finish(id, status) =>
      var t := s.(active := s.active - {id}, log := s.log + [Ended(id, s.now, status, s.active[id].InFlight?)]);
      // A query that never became a request is answered without touching the hangover.
      if s.active[id].Admitted? || status == Complete || status == SendFailed then t
      else t.(expiration := s.now + HANGOVER_DURATION)
  }

  predicate Executable(s: State, es: seq<Event>)
    decreases |es|
  {
    es == [] || (Enabled(s, es[0]) && Executable(Step(s, es[0]), es[1..]))
  }

  function Exec(s: State, es: seq<Event>): State
    requires Executable(s, es)
    decreases |es|
  {
    if es == [] then s else Exec(Step(s, es[0]), es[1..])
  }

  /** A query that was sent has failed, and not for want of sending. */
  predicate IsFailure(e: Entry) {
    e.Ended? && e.sent && e.status != Complete && e.status != SendFailed
  }

  /** No failure before the entry `j` is less than 10 seconds old at `at`. */
  predicate Recovered(log: seq<Entry>, j: nat, at: int) {
    forall i :: 0 <= i < j && i < |log| && IsFailure(log[i]) ==> log[i].at + 10 <= at
  }

  /** A query is admitted if and only if there has been no failure for 10 seconds. */
  predicate RateLimited(log: seq<Entry>) {
    forall j :: 0 <= j < |log| && log[j].Checked? ==> (log[j].admitted <==> Recovered(log, j, log[j].at))
  }

  /** Two failures are at least 10 seconds apart. */
  predicate Spaced(log: seq<Entry>) {
    forall i, j :: 0 <= i < j < |log| && IsFailure(log[i]) && IsFailure(log[j]) ==> log[i].at + 10 <= log[j].at
  }

  /** The hangover ends 10 seconds after the last failure. */
  predicate LastFailure(log: seq<Entry>, now: int, expiration: int) {
    && Recovered(log, |log|, expiration)
    && (expiration <= now || exists i :: 0 <= i < |log| && IsFailure(log[i]) && log[i].at + 10 == expiration)
  }

  predicate Inv(s: State) {
    && LastFailure(s.log, s.now, s.expiration)
    && s.expiration <= s.now + 10
    && (forall id :: id in s.active ==> s.active[id].checked <= s.now)
    && RateLimited(s.log)
    && (!s.overlapped ==>
          && Spaced(s.log)
          && (forall id :: id in s.active ==> s.expiration <= s.active[id].checked)
          && (forall id, other :: id in s.active && other in s.active ==> id == other))
  }

  /** The hangover never moves back, and the invariant stays. */
  lemma StepKeepsInv(s: State, e: Event)
    requires Inv(s) && Enabled(s, e)
    ensures Inv(Step(s, e)) && s.expiration <= Step(s, e).expiration && s.now <= Step(s, e).now
  {
    match e
    case Tick(_) =>
    case Check(id) => CheckKeepsInv(s, id);
    case Send(id) =>
    case Finish(id, status) => FinishKeepsInv(s, id, status);
  }

  lemma RecoveredBefore(log: seq<Entry>, e: Entry, j: nat, at: int)
    requires j <= |log|
    ensures Recovered(log + [e], j, at) <==> Recovered(log, j, at)
  {
    assert forall i :: 0 <= i < j ==> (log + [e])[i] == log[i];
  }

  /** One more entry. */
  lemma LogGrows(log: seq<Entry>, e: Entry, now: int, expiration: int)
    requires LastFailure(log, now, expiration) && RateLimited(log)
    requires e.Checked? ==> (e.admitted <==> Recovered(log, |log|, e.at))
    ensures RateLimited(log + [e])
    ensures !IsFailure(e) ==> LastFailure(log + [e], now, expiration)
    ensures IsFailure(e) && e.at == now && expiration <= now + 10 ==> LastFailure(log + [e], now, now + 10)
  {
    var more := log + [e];
    assert more[|log|] == e;
    forall j | 0 <= j < |more| && more[j].Checked?
      ensures more[j].admitted <==> Recovered(more, j, more[j].at)
    {
      if j < |log| {
        assert more[j] == log[j];
      }
      RecoveredBefore(log, e, j, more[j].at);
    }
    if !IsFailure(e) && expiration > now {
      var i :| 0 <= i < |log| && IsFailure(log[i]) && log[i].at + 10 == expiration;
      assert more[i] == log[i];
    }
  }

  lemma CheckKeepsInv(s: State, id: nat)
    requires Inv(s) && Enabled(s, Check(id))
    ensures Inv(Step(s, Check(id)))
  {
    LogGrows(s.log, Checked(id, s.now, !(s.now < s.expiration)), s.now, s.expiration);
    var t := Step(s, Check(id));
    assert !t.overlapped ==> s.active == map[];
  }

  lemma FinishKeepsInv(s: State, id: nat, status: Status)
    requires Inv(s) && Enabled(s, Finish(id, status))
    ensures Inv(Step(s, Finish(id, status))) && s.expiration <= Step(s, Finish(id, status)).expiration
  {
    LogGrows(s.log, Ended(id, s.now, status, s.active[id].InFlight?), s.now, s.expiration);
    var t := Step(s, Finish(id, status));
    assert s.log <= t.log;
  }

  lemma {:induction false} RunKeepsInv(s: State, es: seq<Event>)
    requires Inv(s) && Executable(s, es)
    ensures Inv(Exec(s, es)) && s.expiration <= Exec(s, es).expiration
    decreases |es|
  {
    if es != [] {
      StepKeepsInv(s, es[0]);
      RunKeepsInv(Step(s, es[0]), es[1..]);
    }
  }

  /** Whatever happens, in whatever interleaving: a query is admitted if and only if no failure is less than
      10 seconds old; and if no query starts while another is under way, failures are at least 10 seconds
      apart. */
  lemma HangoverLimitsQueries(start: int, es: seq<Event>)
    requires Executable(Initial(start), es)
    ensures RateLimited(Exec(Initial(start), es).log)
    ensures !Exec(Initial(start), es).overlapped ==> Spaced(Exec(Initial(start), es).log)
  {
    RunKeepsInv(Initial(start), es);
  }

  // One query, as Ask sees it, among the others

  /** The steps of a query that begins at `w.checkTime` and, if it fails, does so at `w.failTime`. */
  function QuerySteps(id: nat, o: Outcome, hangover: int, w: World): seq<Event>
    requires w.checkTime <= w.failTime
  {
    if w.checkTime < hangover then [Check(id)]
    else if o.posted.None? then [Check(id), Finish(id, o.status)]
    else [Check(id), Send(id), Tick(w.failTime - w.checkTime), Finish(id, o.status)]
  }

  /** What an outcome outside the hangover does to it. */
  predicate Sensible(o: Outcome, hangover: int, w: World) {
    if o.posted.None? then o.status == InternalError && o.hangover == hangover
    else
      o.hangover == if o.status == Complete || o.status == SendFailed then hangover else w.failTime + HANGOVER_DURATION
  }

  lemma AskIsSensible(raw: seq<byte>, hangover: int, w: World)
    requires |raw| >= 2
    ensures
      var o := Ask(raw, hangover, w);
      if w.checkTime < hangover then o.posted.None? && o.hangover == hangover else Sensible(o, hangover, w)
  {
  }

  lemma ExecPair(s: State, e: Event, f: Event)
    requires Enabled(s, e) && Enabled(Step(s, e), f)
    ensures Executable(s, [e, f]) && Exec(s, [e, f]) == Step(Step(s, e), f)
  {
    var t := Step(s, e);
    assert [e, f][1..] == [f] && [f][1..] == [];
    assert Executable(Step(t, f), []) && Executable(t, [f]) && Exec(t, [f]) == Step(t, f);
  }

  lemma {:induction false} ExecJoins(s: State, es: seq<Event>, fs: seq<Event>)
    requires Executable(s, es) && Executable(Exec(s, es), fs)
    ensures Executable(s, es + fs) && Exec(s, es + fs) == Exec(Exec(s, es), fs)
    decreases |es|
  {
    if es == [] {
      assert es + fs == fs;
    } else {
      assert (es + fs)[1..] == es[1..] + fs;
      ExecJoins(Step(s, es[0]), es[1..], fs);
    }
  }

  /** The steps of a query that is sent. */
  lemma SentIsRun(s: State, id: nat, o: Outcome, w: World)
    requires id !in s.active && s.expiration <= s.now == w.checkTime <= w.failTime
    requires o.posted.Some? && Sensible(o, s.expiration, w)
    ensures
      var es := QuerySteps(id, o, s.expiration, w);
      Executable(s, es) && Exec(s, es).expiration == o.hangover && Exec(s, es).active == s.active
  {
    var front, back := [Check(id), Send(id)], [Tick(w.failTime - w.checkTime), Finish(id, o.status)];
    ExecPair(s, Check(id), Send(id));
    var u := Step(Step(s, Check(id)), Send(id));
    assert u.active == s.active[id := InFlight(s.now)] && u.expiration == s.expiration && u.now == s.now;
    ExecPair(u, Tick(w.failTime - w.checkTime), Finish(id, o.status));
    ExecJoins(s, front, back);
    assert front + back == QuerySteps(id, o, s.expiration, w);
    assert u.active - {id} == s.active;
  }

  lemma UnsentIsRun(s: State, id: nat, o: Outcome, w: World)
    requires id !in s.active && s.now == w.checkTime <= w.failTime && o.posted.None? && o.hangover == s.expiration
    requires s.expiration <= s.now ==> o.status == InternalError
    ensures
      var es := QuerySteps(id, o, s.expiration, w);
      Executable(s, es) && Exec(s, es).expiration == o.hangover && Exec(s, es).active == s.active
  {
    var t := Step(s, Check(id));
    if s.now < s.expiration {
      assert [Check(id)][1..] == [] && Executable(t, []);
    } else {
      ExecPair(s, Check(id), Finish(id, o.status));
      assert t.active - {id} == s.active;
    }
  }

  /** A query that DohTransport.Ask describes is a run of this machine: the same hangover comes of it, and it is
      sent in the one just if something is posted in the other. */
  lemma QueryIsRun(s: State, id: nat, raw: seq<byte>, w: World)
    requires |raw| >= 2 && id !in s.active && s.now == w.checkTime <= w.failTime
    ensures
      var o := Ask(raw, s.expiration, w);
      var es := QuerySteps(id, o, s.expiration, w);
      && Executable(s, es)
      && Exec(s, es).expiration == o.hangover && Exec(s, es).active == s.active
      && (o.posted.Some? <==> Send(id) in es)
  {
    var o := Ask(raw, s.expiration, w);
    AskIsSensible(raw, s.expiration, w);
    if o.posted.Some? {
      SentIsRun(s, id, o, w);
      assert QuerySteps(id, o, s.expiration, w)[1] == Send(id);
    } else {
      UnsentIsRun(s, id, o, w);
    }
  }
}
