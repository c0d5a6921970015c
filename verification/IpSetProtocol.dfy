/** intra/doh/ipmap/ipmap.go under concurrency: IPSet calls are atomic as far as anybody can tell, and
    every Get of a host returns the same set. */
module IpSetProtocol {
  import opened IpSets

  // One IPSet.  Only Confirm has more than one step: it looks at the confirmed address under the read
  // lock (:145), and may then wait for the write lock (:149).

  datatype Op = Confirm(ip: IP) | Disconfirm(ip: IP) | Add(resolved: seq<IP>)

  datatype Call = Begun(op: Op) | ConfirmSlow(ip: IP)

  datatype State = State(
    ips: seq<IP>, confirmed: IP,
    calls: map<nat, Call>,
    order: seq<(nat, Op)>)  // the calls that have taken effect, in order

  datatype Event =
    | Begin(id: nat, op: Op)
    | FastCheck(id: nat)
    | Body(id: nat)

  predicate Fresh(s: State, id: nat) {
    id !in s.calls && forall i :: 0 <= i < |s.order| ==> s.order[i].0 != id
  }

  predicate Enabled(s: State, e: Event) {
    match e
    case Begin(id, _) => Fresh(s, id)
    case FastCheck(id) => id in s.calls && s.calls[id].Begun? && s.calls[id].op.Confirm?
    case Body(id) => id in s.calls && (s.calls[id].Begun? ==> !s.calls[id].op.Confirm?)
  }

  function TakesEffect(s: State, id: nat, op: Op, ips: seq<IP>, confirmed: IP): State {
    State(ips, confirmed, s.calls - {id}, s.order + [(id, op)])
  }

  function Step(s: State, e: Event): State
    requires Enabled(s, e)
  {
    match e
    case Begin(id, op) => s.(calls := s.calls[id := Begun(op)])
    case FastCheck(id) =>
      var ip := s.calls[id].op.ip;
      if Equal(ip, s.confirmed) then TakesEffect(s, id, Confirm(ip), s.ips, s.confirmed)
      else s.(calls := s.calls[id := ConfirmSlow(ip)])
    case Body(id) =>
      match s.calls[id]
      case ConfirmSlow(ip) => TakesEffect(s, id, Confirm(ip), AddTo(s.ips, ip), ip)
      case Begun(Disconfirm(ip)) =>
        TakesEffect(s, id, Disconfirm(ip), s.ips, if Equal(ip, s.confirmed) then NIL else s.confirmed)
      case Begun(Add(resolved)) => TakesEffect(s, id, Add(resolved), AddAll(s.ips, resolved), s.confirmed)
      case Begun(Confirm(_)) => s
  }

  predicate Executable(s: State, es: seq<Event>)
    decreases |es|
  {
    es == [] || (Enabled(s, es[0]) && Executable(Step(s, es[0]), es[1..]))
  }

  function Exec(s: State, es: seq<Event>): State
    requires Executable(s, es)
    decreases |es|
  {
    if es == [] then s else Exec(Step(s, es[0]), es[1..])
  }

  const INITIAL := State([], NIL, map[], [])

  // The same set as one object that answers one call at a time

  /** Addresses in canonical form, so that equal addresses are the same; nil is not an address. */
  datatype Abstract = Abstract(ips: set<IP>, confirmed: IP)

  function Addresses(ips: set<IP>): set<IP> {
    ips - {NIL}
  }

  function AbsOf(ips: seq<IP>, confirmed: IP): Abstract {
    Abstract(Addresses(Canons(ips)), Canon(confirmed))
  }

  function Abs(s: State): Abstract {
    AbsOf(s.ips, s.confirmed)
  }

  function Apply(a: Abstract, op: Op): Abstract {
    match op
    case Confirm(ip) => Abstract(a.ips + Addresses({Canon(ip)}), Canon(ip))
    case Disconfirm(ip) => if Canon(ip) == a.confirmed then a.(confirmed := NIL) else a
    case Add(resolved) => a.(ips := a.ips + Addresses(Canons(resolved)))
  }

  function ApplyAll(a: Abstract, order: seq<(nat, Op)>): Abstract {
    if order == [] then a else Apply(ApplyAll(a, order[..|order| - 1]), order[|order| - 1].1)
  }

  /** No call takes effect twice, and none before it has begun or while it is still to do so. */
  predicate OnceEach(s: State) {
    && (forall i, j :: 0 <= i < j < |s.order| ==> s.order[i].0 != s.order[j].0)
    && (forall i :: 0 <= i < |s.order| ==> s.order[i].0 !in s.calls)
  }

  predicate Inv(s: State) {
    && Sound(s.ips, s.confirmed)
    && OnceEach(s)
    && Abs(s) == ApplyAll(Abs(INITIAL), s.order)
  }

  lemma EffectKeepsInv(s: State, id: nat, op: Op, ips: seq<IP>, confirmed: IP)
    requires Inv(s) && id in s.calls && Sound(ips, confirmed)
    requires AbsOf(ips, confirmed) == Apply(Abs(s), op)
    ensures Inv(TakesEffect(s, id, op, ips, confirmed))
  {
    var t := TakesEffect(s, id, op, ips, confirmed);
    assert t.order[..|s.order|] == s.order;
    assert t.order[|s.order|] == (id, op);
  }

  lemma CanonOfNil(ip: IP)
    ensures Canon(ip) == NIL <==> ip == NIL
  {
  }

  /** Sets only grow, and the invariant stays. */
  lemma StepKeepsInv(s: State, e: Event)
    requires Inv(s) && Enabled(s, e)
    ensures Inv(Step(s, e)) && s.ips <= Step(s, e).ips
  {
    HasIsCanon(s.ips, s.confirmed);
    match e
    case Begin(id, op) =>
    case FastCheck(id) =>
      var ip := s.calls[id].op.ip;
      EqualIsCanon(ip, s.confirmed);
      CanonOfNil(ip);
      CanonOfNil(s.confirmed);
      if Equal(ip, s.confirmed) {
        assert Addresses(Canons(s.ips)) + Addresses({Canon(ip)}) == Addresses(Canons(s.ips));
        EffectKeepsInv(s, id, Confirm(ip), s.ips, s.confirmed);
      }
    case Body(id) =>
      match s.calls[id]
      case ConfirmSlow(ip) =>
        AddToCanons(s.ips, ip);
        HasIsCanon(AddTo(s.ips, ip), ip);
        EffectKeepsInv(s, id, Confirm(ip), AddTo(s.ips, ip), ip);
      case Begun(Disconfirm(ip)) =>
        EqualIsCanon(ip, s.confirmed);
        CanonOfNil(s.confirmed);
        EffectKeepsInv(s, id, Disconfirm(ip), s.ips, if Equal(ip, s.confirmed) then NIL else s.confirmed);
      case Begun(Add(resolved)) =>
        AddAllCanons(s.ips, resolved);
        HasIsCanon(AddAll(s.ips, resolved), s.confirmed);
        EffectKeepsInv(s, id, Add(resolved), AddAll(s.ips, resolved), s.confirmed);
      case Begun(Confirm(_)) =>
  }

  lemma {:induction false} RunKeepsInv(s: State, es: seq<Event>)
    requires Inv(s) && Executable(s, es)
    ensures Inv(Exec(s, es)) && s.ips <= Exec(s, es).ips
    decreases |es|
  {
    if es != [] {
      StepKeepsInv(s, es[0]);
      RunKeepsInv(Step(s, es[0]), es[1..]);
    }
  }

  // Which calls take effect, and in which order

  function OpOf(c: Call): Op {
    match c
    case Begun(op) => op
    case ConfirmSlow(ip) => Confirm(ip)
  }

  predicate Pending(calls: map<nat, Call>, id: nat, op: Op) {
    id in calls && OpOf(calls[id]) == op
  }

  /** From `s` to `t` the order only grows; every call begun in `es` has taken effect, with its own
      operation, or is still under way; and nothing else has taken effect but such calls and those that were
      under way in `s`. */
  ghost predicate Serves(s: State, es: seq<Event>, t: State) {
    && s.order <= t.order
    && (forall id: nat, op :: Begin(id, op) in es ==> (id, op) in t.order || Pending(t.calls, id, op))
    && (forall id: nat, op :: Pending(s.calls, id, op) ==> (id, op) in t.order || Pending(t.calls, id, op))
    && (forall i :: |s.order| <= i < |t.order| ==>
          Begin(t.order[i].0, t.order[i].1) in es || Pending(s.calls, t.order[i].0, t.order[i].1))
    && (forall id: nat, op :: Pending(t.calls, id, op) ==> Begin(id, op) in es || Pending(s.calls, id, op))
  }

  lemma EffectServes(s: State, id: nat, op: Op, ips: seq<IP>, confirmed: IP, e: Event)
    requires Pending(s.calls, id, op) && !e.Begin?
    ensures Serves(s, [e], TakesEffect(s, id, op, ips, confirmed))
  {
    var t := TakesEffect(s, id, op, ips, confirmed);
    assert t.order[|s.order|] == (id, op);
  }

  lemma StepServes(s: State, e: Event)
    requires Enabled(s, e)
    ensures Serves(s, [e], Step(s, e))
  {
    match e
    case Begin(id, op) =>
      assert e in [e];
    case FastCheck(id) =>
      var ip := s.calls[id].op.ip;
      if Equal(ip, s.confirmed) {
        EffectServes(s, id, Confirm(ip), s.ips, s.confirmed, e);
      }
    case Body(id) =>
      var t := Step(s, e);
      EffectServes(s, id, OpOf(s.calls[id]), t.ips, t.confirmed, e);
  }

  lemma ServesFollow(s: State, es: seq<Event>, t: State, fs: seq<Event>, u: State)
    requires Serves(s, es, t) && Serves(t, fs, u)
    ensures Serves(s, es + fs, u)
  {
    forall i | |s.order| <= i < |u.order|
      ensures Begin(u.order[i].0, u.order[i].1) in es + fs || Pending(s.calls, u.order[i].0, u.order[i].1)
    {
      if i < |t.order| {
        assert u.order[i] == t.order[i];
      }
    }
    forall id: nat, op | Begin(id, op) in es + fs
      ensures (id, op) in u.order || Pending(u.calls, id, op)
    {
      EntryStays(t.order, u.order, (id, op));
    }
    forall id: nat, op | Pending(s.calls, id, op)
      ensures (id, op) in u.order || Pending(u.calls, id, op)
    {
      EntryStays(t.order, u.order, (id, op));
    }
  }

  lemma EntryStays<T>(xs: seq<T>, ys: seq<T>, x: T)
    requires xs <= ys
    ensures x in xs ==> x in ys
  {
    if x in xs {
      var i :| 0 <= i < |xs| && xs[i] == x;
      assert ys[i] == x;
    }
  }

  lemma {:induction false} RunServes(s: State, es: seq<Event>)
    requires Executable(s, es)
    ensures Serves(s, es, Exec(s, es))
    decreases |es|
  {
    if es != [] {
      StepServes(s, es[0]);
      RunServes(Step(s, es[0]), es[1..]);
      ServesFollow(s, [es[0]], Step(s, es[0]), es[1..], Exec(s, es));
      assert [es[0]] + es[1..] == es;
    }
  }

  /** A run goes through the ends of its prefixes. */
  lemma {:induction false} RunSplits(s: State, es: seq<Event>, k: nat)
    requires Executable(s, es) && k <= |es|
    ensures Executable(s, es[..k]) && Executable(Exec(s, es[..k]), es[k..])
    ensures Exec(Exec(s, es[..k]), es[k..]) == Exec(s, es)
    decreases |es|
  {
    if k > 0 {
      RunSplits(Step(s, es[0]), es[1..], k - 1);
      assert es[..k][1..] == es[1..][..k - 1] && es[k..] == es[1..][k - 1..];
    } else {
      assert es[..0] == [] && es[0..] == es;
    }
  }

  /** After the first `k` steps, what has taken effect is a prefix of what takes effect in the whole run, and
      is just what was begun by then and is not under way. */
  ghost predicate SettledBy(es: seq<Event>, k: nat)
    requires Executable(INITIAL, es) && k <= |es|
  {
    && Executable(INITIAL, es[..k])
    && var u := Exec(INITIAL, es[..k]);
       u.order <= Exec(INITIAL, es).order && OnceEach(u) && Serves(INITIAL, es[..k], u)
  }

  lemma InitialInv()
    ensures Inv(INITIAL) && Abs(INITIAL) == Abstract({}, NIL)
  {
    assert Canons([]) == {};
  }

  lemma PrefixSettles(es: seq<Event>, k: nat)
    requires Executable(INITIAL, es) && k <= |es|
    ensures SettledBy(es, k)
  {
    InitialInv();
    RunSplits(INITIAL, es, k);
    var u := Exec(INITIAL, es[..k]);
    RunServes(u, es[k..]);
    RunKeepsInv(INITIAL, es[..k]);
    RunServes(INITIAL, es[..k]);
  }

  /** Linearizability: however the calls overlap, the set ends up as if the calls that have taken
      effect had been made one after the other, in `order`.  These are calls that have begun, each once and
      with its own operation; every other call that has begun is still under way.  That holds at every moment
      of the run, and the order never changes: so a call takes effect between its beginning and its end, and
      one that has ended comes before all that begin later.  In particular Confirm's look without the write
      lock does no harm. */
  lemma Linearizable(es: seq<Event>)
    requires Executable(INITIAL, es)
    ensures
      var s := Exec(INITIAL, es);
      && Abs(s) == ApplyAll(Abstract({}, NIL), s.order)
      && OnceEach(s)
      && Sound(s.ips, s.confirmed)
      && Serves(INITIAL, es, s)
    ensures forall k :: 0 <= k <= |es| ==> SettledBy(es, k)
  {
    InitialInv();
    RunKeepsInv(INITIAL, es);
    RunServes(INITIAL, es);
    forall k | 0 <= k <= |es|
      ensures SettledBy(es, k)
    {
      PrefixSettles(es, k);
    }
  }

  /** An IPSet with the calls that are under way on it.  A method is a step of the machine. */
  class SharedIPSet {
    const ipSet: IPSet
    var calls: map<nat, Call>
    ghost var order: seq<(nat, Op)>

    ghost function View(): State
      reads this, ipSet
    {
      State(ipSet.ips, ipSet.confirmed, calls, order)
    }

    constructor ()
      ensures View() == INITIAL && fresh(ipSet) && ipSet.Valid()
    {
      ipSet := new IPSet();
      calls, order := map[], [];
    }

    /** The call has taken effect. */
    method Ends(id: nat, ghost op: Op)
      modifies this
      ensures View() == TakesEffect(old(View()), id, op, ipSet.ips, ipSet.confirmed)
    {
      calls := calls - {id};
      order := order + [(id, op)];
    }

    method CheckConfirmed(id: nat)
      requires Enabled(View(), FastCheck(id))
      modifies this
      ensures View() == Step(old(View()), FastCheck(id))
    {
      var ip := calls[id].op.ip;
      var same := ipSet.IsConfirmed(ip);
      if same {
        Ends(id, Confirm(ip));
      } else {
        calls := calls[id := ConfirmSlow(ip)];
      }
    }

    /** A call under the write lock. */
    method RunBody(id: nat)
      requires ipSet.Valid() && Enabled(View(), Body(id))
      modifies this, ipSet
      ensures ipSet.Valid() && View() == Step(old(View()), Body(id))
    {
      match calls[id]
      case ConfirmSlow(ip) =>
        ipSet.SetConfirmed(ip);
        Ends(id, Confirm(ip));
      case Begun(Disconfirm(ip)) =>
        ipSet.Disconfirm(ip);
        Ends(id, Disconfirm(ip));
      case Begun(Add(resolved)) =>
        ipSet.Add(resolved);
        Ends(id, Add(resolved));
    }

    method Perform(e: Event)
      requires ipSet.Valid() && Enabled(View(), e)
      modifies this, ipSet
      ensures ipSet.Valid() && View() == Step(old(View()), e)
    {
      match e
      case Begin(id, op) => calls := calls[id := Begun(op)];
      case FastCheck(id) => CheckConfirmed(id);
      case Body(id) => RunBody(id);
    }
  }

  /** Every run of the machine is a run of the object. */
  method Run(es: seq<Event>) returns (s: SharedIPSet)
    requires Executable(INITIAL, es)
    ensures fresh(s) && s.View() == Exec(INITIAL, es)
  {
    s := new SharedIPSet();
    for i := 0 to |es|
      invariant fresh(s) && fresh(s.ipSet) && s.ipSet.Valid()
      invariant Executable(s.View(), es[i..]) && Exec(s.View(), es[i..]) == Exec(INITIAL, es)
    {
      assert es[i..][1..] == es[i + 1..];
      s.Perform(es[i]);
    }
  }

  // ipMap.Get: look under the read lock (:50-52), build a set outside any lock (:57-58), look again
  // and perhaps insert it under the write lock (:60-70).

  datatype GetCall = Looking(host: string) | Building(host: string, mine: nat) | Returned(host: string, result: nat)

  datatype Table = Table(sets: map<string, nat>, calls: map<nat, GetCall>, built: nat)

  datatype GetEvent = GetCalled(id: nat, host: string) | Look(id: nat) | Insert(id: nat)

  predicate GetEnabled(t: Table, e: GetEvent) {
    match e
    case GetCalled(id, _) => id !in t.calls
    case Look(id) => id in t.calls && t.calls[id].Looking?
    case Insert(id) => id in t.calls && t.calls[id].Building?
  }

  function GetStep(t: Table, e: GetEvent): Table
    requires GetEnabled(t, e)
  {
    match e
    case GetCalled(id, host) => t.(calls := t.calls[id := Looking(host)])
    case Look(id) =>
      var host := t.calls[id].host;
      if host in t.sets then t.(calls := t.calls[id := Returned(host, t.sets[host])])
      else t.(calls := t.calls[id := Building(host, t.built)], built := t.built + 1)
    case Insert(id) =>
      var Building(host, mine) := t.calls[id];
      if host in t.sets then t.(calls := t.calls[id := Returned(host, t.sets[host])])
      else t.(sets := t.sets[host := mine], calls := t.calls[id := Returned(host, mine)])
  }

  predicate GetExecutable(t: Table, es: seq<GetEvent>)
    decreases |es|
  {
    es == [] || (GetEnabled(t, es[0]) && GetExecutable(GetStep(t, es[0]), es[1..]))
  }

  function GetExec(t: Table, es: seq<GetEvent>): Table
    requires GetExecutable(t, es)
    decreases |es|
  {
    if es == [] then t else GetExec(GetStep(t, es[0]), es[1..])
  }

  /** What a Get returned is what the table holds; no two hosts share a set, and a set that is being
      built is nobody else's. */
  predicate TableInv(t: Table) {
    && (forall id :: id in t.calls && t.calls[id].Returned? ==>
          t.calls[id].host in t.sets && t.sets[t.calls[id].host] == t.calls[id].result)
    && (forall h :: h in t.sets ==> t.sets[h] < t.built)
    && (forall id :: id in t.calls && t.calls[id].Building? ==> t.calls[id].mine < t.built)
    && (forall id, h :: id in t.calls && t.calls[id].Building? && h in t.sets ==> t.calls[id].mine != t.sets[h])
    && (forall id, other | id in t.calls && other in t.calls && id != other ::
          t.calls[id].Building? && t.calls[other].Building? ==> t.calls[id].mine != t.calls[other].mine)
    && (forall h, k :: h in t.sets && k in t.sets && h != k ==> t.sets[h] != t.sets[k])
  }

  lemma LookKeepsInv(t: Table, id: nat)
    requires TableInv(t) && GetEnabled(t, Look(id))
    ensures TableInv(GetStep(t, Look(id)))
  {
  }

  lemma InsertKeepsInv(t: Table, id: nat)
    requires TableInv(t) && GetEnabled(t, Insert(id))
    ensures TableInv(GetStep(t, Insert(id)))
  {
  }

  lemma GetStepKeepsInv(t: Table, e: GetEvent)
    requires TableInv(t) && GetEnabled(t, e)
    ensures TableInv(GetStep(t, e))
  {
    match e
    case GetCalled(_, _) =>
    case Look(id) => LookKeepsInv(t, id);
    case Insert(id) => InsertKeepsInv(t, id);
  }

  lemma {:induction false} GetRunKeepsInv(t: Table, es: seq<GetEvent>)
    requires TableInv(t) && GetExecutable(t, es)
    ensures TableInv(GetExec(t, es))
    decreases |es|
  {
    if es != [] {
      GetStepKeepsInv(t, es[0]);
      GetRunKeepsInv(GetStep(t, es[0]), es[1..]);
    }
  }

  /** All Gets return the same set if and only if they are about the same host. */
  lemma GetIsConsistent(es: seq<GetEvent>, id: nat, other: nat)
    requires GetExecutable(Table(map[], map[], 0), es)
    requires
      var t := GetExec(Table(map[], map[], 0), es);
      id in t.calls && other in t.calls && t.calls[id].Returned? && t.calls[other].Returned?
    ensures
      var t := GetExec(Table(map[], map[], 0), es);
      t.calls[id].result == t.calls[other].result <==> t.calls[id].host == t.calls[other].host
  {
    GetRunKeepsInv(Table(map[], map[], 0), es);
  }

  /** The ipMap struct: its table is only touched under its lock, in Lookup and Insert. */
  class IpMap {
    var m: map<string, IPSet>

    ghost predicate Valid()
      reads this, m.Values
    {
      && (forall h :: h in m ==> m[h].Valid())
      && (forall h, k :: h in m && k in m && h != k ==> m[h] != m[k])
    }

    constructor ()
      ensures Valid() && m == map[]
    {
      m := map[];
    }

    method Lookup(host: string) returns (s: IPSet?)
      ensures s == null <==> host !in m
      ensures s != null ==> s == m[host]
    {
      s := if host in m then m[host] else null;
    }

    /** The set that another call has inserted meanwhile wins. */
    method Insert(host: string, mine: IPSet) returns (s: IPSet)
      modifies this
      ensures m == if host in old(m) then old(m) else old(m)[host := mine]
      ensures host in m && s == m[host]
    {
      var s2 := Lookup(host);
      if s2 == null {
        m := m[host := mine];
        s := mine;
      } else {
        s := s2;
      }
    }

    /** Get, with no other call in between, and with what the resolver returned. */
    method Get(host: string, resolved: seq<IP>) returns (s: IPSet)
      requires Valid()
      modifies this
      ensures Valid() && host in m && s == m[host]
      ensures host in old(m) ==> m == old(m)
      ensures host !in old(m) ==>
                m == old(m)[host := s] && fresh(s) && s.confirmed == NIL && Canons(s.ips) == Canons(resolved)
    {
      var found := Lookup(host);
      if found != null {
        return found;
      }
      var mine := new IPSet();
      mine.Add(resolved);
      s := Insert(host, mine);
    }
  }

  /** An IpMap with the calls of Get that are under way.  A method is a step of the machine; the sets that
      have been built have numbers. */
  class SharedIpMap {
    const ipMap: IpMap
    var built: seq<IPSet>
    var numbers: map<string, nat>
    var calls: map<nat, GetCall>

    ghost predicate Valid()
      reads this, ipMap
    {
      && ipMap.m.Keys == numbers.Keys
      && (forall h :: h in numbers ==> numbers[h] < |built| && built[numbers[h]] == ipMap.m[h])
      && (forall id :: id in calls && calls[id].Building? ==> calls[id].mine < |built|)
    }

    ghost function View(): Table
      reads this
    {
      Table(numbers, calls, |built|)
    }

    constructor ()
      ensures Valid() && fresh(ipMap) && View() == Table(map[], map[], 0)
    {
      ipMap := new IpMap();
      built, numbers, calls := [], map[], map[];
    }

    /** A set that was built is a new one, with what the resolver returned. */
    method Looks(id: nat, resolved: seq<IP>)
      requires Valid() && GetEnabled(View(), Look(id))
      modifies this
      ensures Valid() && View() == GetStep(old(View()), Look(id))
      ensures old(built) <= built && |built| <= |old(built)| + 1
      ensures |built| > |old(built)| ==>
                fresh(built[|old(built)|]) && Canons(built[|old(built)|].ips) == Canons(resolved)
    {
      var host := calls[id].host;
      var s := ipMap.Lookup(host);
      if s == null {
        var mine := new IPSet();
        mine.Add(resolved);
        calls := calls[id := Building(host, |built|)];
        built := built + [mine];
      } else {
        calls := calls[id := Returned(host, numbers[host])];
      }
    }

    method Inserts(id: nat)
      requires Valid() && GetEnabled(View(), Insert(id))
      modifies this, ipMap
      ensures Valid() && View() == GetStep(old(View()), Insert(id)) && built == old(built)
    {
      var Building(host, mine) := calls[id];
      var known := host in ipMap.m;
      var s := ipMap.Insert(host, built[mine]);
      if !known {
        numbers := numbers[host := mine];
      }
      calls := calls[id := Returned(host, numbers[host])];
    }

    method Perform(e: GetEvent, resolved: seq<IP>)
      requires Valid() && GetEnabled(View(), e)
      modifies this, ipMap
      ensures Valid() && View() == GetStep(old(View()), e)
    {
      match e
      case GetCalled(id, host) => calls := calls[id := Looking(host)];
      case Look(id) => Looks(id, resolved);
      case Insert(id) => Inserts(id);
    }
  }

  /** Every run of the Get machine is a run of the object; `resolved` is what the resolver returns. */
  method RunGets(es: seq<GetEvent>, resolved: seq<seq<IP>>) returns (s: SharedIpMap)
    requires GetExecutable(Table(map[], map[], 0), es) && |resolved| == |es|
    ensures fresh(s) && s.Valid() && s.View() == GetExec(Table(map[], map[], 0), es)
  {
    s := new SharedIpMap();
    for i := 0 to |es|
      invariant fresh(s) && fresh(s.ipMap) && s.Valid()
      invariant GetExecutable(s.View(), es[i..]) && GetExec(s.View(), es[i..]) == GetExec(Table(map[], map[], 0), es)
    {
      assert es[i..][1..] == es[i + 1..];
      s.Perform(es[i], resolved[i]);
    }
  }
}
