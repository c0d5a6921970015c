// intra/doh/doh.go: dial, which looks for a working address of the server.
module Dial {
  import opened Common
  import opened IpSets

  /** No address is tried twice, in whatever form. */
  predicate NoRepeat(attempts: seq<IP>) {
    Distinct(attempts)
  }

  /** Every address of the set has been tried, in one form or the other. */
  predicate Covers(attempts: seq<IP>, ips: seq<IP>) {
    forall i :: 0 <= i < |ips| && ips[i] != NIL ==> Has(attempts, ips[i])
  }

  /** The set holds no address; nil, which no resolver returns, is not one. */
  predicate NoAddress(ips: seq<IP>) {
    forall i :: 0 <= i < |ips| ==> ips[i] == NIL
  }

  lemma PermutationKeepsDistinct(ips: seq<IP>, c: seq<IP>)
    requires multiset(ips) == multiset(c) && Distinct(ips)
    ensures Distinct(c)
  {
    forall i, j | 0 <= i < j < |c|
      ensures !Equal(c[i], c[j])
    {
      if Equal(c[i], c[j]) {
        if c[i] == c[j] {
          TwiceInMultiset(c, i, j);
          MultiplicityOfDistinct(ips, c[i]);
          assert false;
        } else {
          assert c[i] in multiset(ips) && c[j] in multiset(ips);
          var k :| 0 <= k < |ips| && ips[k] == c[i];
          var l :| 0 <= l < |ips| && ips[l] == c[j];
          EqualIsCanon(c[i], c[j]);
          EqualIsCanon(c[j], c[i]);
          assert false;
        }
      }
    }
  }

  lemma TwiceInMultiset(c: seq<IP>, i: nat, j: nat)
    requires i < j < |c| && c[i] == c[j]
    ensures multiset(c)[c[i]] >= 2
  {
    assert c == c[..j] + c[j..];
    assert c[i] in c[..j] && c[j] in c[j..];
  }

  lemma {:induction false} MultiplicityOfDistinct(ips: seq<IP>, ip: IP)
    requires Distinct(ips)
    ensures multiset(ips)[ip] <= 1
  {
    if ips != [] {
      var n := |ips| - 1;
      MultiplicityOfDistinct(ips[..n], ip);
      assert ips == ips[..n] + [ips[n]];
      if ips[n] == ip {
        EqualIsCanon(ip, ip);
        assert ip !in ips[..n];
      }
    }
  }

  lemma SelfIn(ips: seq<IP>, ip: IP)
    requires ip in ips
    ensures Has(ips, ip)
  {
    var i :| 0 <= i < |ips| && ips[i] == ip;
    EqualIsCanon(ips[i], ip);
  }

  /** Has sees addresses up to Equal. */
  lemma HasEqual(ips: seq<IP>, a: IP, b: IP)
    requires Has(ips, a) && Equal(a, b)
    ensures Has(ips, b)
  {
    var i :| 0 <= i < |ips| && Equal(ips[i], a);
    EqualIsCanon(ips[i], a);
    EqualIsCanon(a, b);
    EqualIsCanon(ips[i], b);
  }

  lemma EqualIsSymmetric(a: IP, b: IP)
    ensures Equal(a, b) <==> Equal(b, a)
  {
    EqualIsCanon(a, b);
    EqualIsCanon(b, a);
  }

  /** Earlier attempts are the confirmed address or earlier members of the shuffled copy. */
  predicate FromBefore(attempts: seq<IP>, confirmed: IP, all: seq<IP>, i: nat) {
    forall j :: 0 <= j < |attempts| ==>
      (confirmed != NIL && attempts[j] == confirmed) || exists k :: 0 <= k < i && k < |all| && all[k] == attempts[j]
  }

  lemma AttemptIsNew(attempts: seq<IP>, confirmed: IP, all: seq<IP>, i: nat)
    requires i < |all| && Distinct(all) && NoRepeat(attempts) && FromBefore(attempts, confirmed, all, i)
    requires !Equal(all[i], confirmed)
    ensures NoRepeat(attempts + [all[i]]) && FromBefore(attempts + [all[i]], confirmed, all, i + 1)
  {
    var more := attempts + [all[i]];
    EqualIsSymmetric(all[i], confirmed);
    forall j | 0 <= j < |attempts|
      ensures !Equal(attempts[j], all[i])
    {
      if attempts[j] != confirmed {
        var k :| 0 <= k < i && all[k] == attempts[j];
      }
    }
    forall j | 0 <= j < |more|
      ensures (confirmed != NIL && more[j] == confirmed) || exists k :: 0 <= k < i + 1 && k < |all| && all[k] == more[j]
    {
      if j < |attempts| {
        assert more[j] == attempts[j];
      } else {
        assert all[i] == more[j];
      }
    }
  }

  lemma CoversMore(attempts: seq<IP>, all: seq<IP>, i: nat)
    requires i < |all| && Covers(attempts, all[..i])
    ensures Covers(attempts + [all[i]], all[..i + 1])
  {
    var more := attempts + [all[i]];
    forall k | 0 <= k < i + 1 && all[k] != NIL
      ensures Has(more, all[k])
    {
      if k < i {
        assert all[..i][k] == all[k];
        var j :| 0 <= j < |attempts| && Equal(attempts[j], all[k]);
        assert more[j] == attempts[j];
      } else {
        assert more[|attempts|] == all[i];
        SelfIn(more, all[k]);
      }
    }
  }

  lemma CoversPermutation(attempts: seq<IP>, all: seq<IP>, ips: seq<IP>)
    requires Covers(attempts, all) && multiset(all) == multiset(ips)
    ensures Covers(attempts, ips)
  {
    forall i | 0 <= i < |ips| && ips[i] != NIL
      ensures Has(attempts, ips[i])
    {
      assert ips[i] in multiset(all);
      var k :| 0 <= k < |all| && all[k] == ips[i];
    }
  }

  /** The address that is skipped is the confirmed one, which has been tried first. */
  lemma SkippedIsCovered(attempts: seq<IP>, confirmed: IP, all: seq<IP>, i: nat)
    requires i < |all| && Equal(all[i], confirmed) && Covers(attempts, all[..i])
    requires FromBefore(attempts, confirmed, all, i)
    requires confirmed != NIL ==> attempts != [] && attempts[0] == confirmed
    ensures Covers(attempts, all[..i + 1]) && FromBefore(attempts, confirmed, all, i + 1)
  {
    assert all[..i + 1] == all[..i] + [all[i]];
    if all[i] != NIL {
      EqualIsSymmetric(all[i], confirmed);
      SelfIn(attempts, confirmed);
      HasEqual(attempts, confirmed, all[i]);
    }
    forall k | 0 <= k < i + 1 && all[k] != NIL
      ensures Has(attempts, all[k])
    {
      if k < i {
        assert all[..i][k] == all[k];
      }
    }
  }

  /** What has been tried so far: members of the set, none twice, none of which works. */
  predicate AllFailed(attempts: seq<IP>, ips: seq<IP>, works: IP -> bool) {
    NoRepeat(attempts) && forall j :: 0 <= j < |attempts| ==> !works(attempts[j]) && Has(ips, attempts[j])
  }

  lemma MemberOfSet(ips: seq<IP>, all: seq<IP>, i: nat)
    requires i < |all| && multiset(all) == multiset(ips)
    ensures Has(ips, all[i])
  {
    assert all[i] in multiset(all);
    SelfIn(ips, all[i]);
  }

  /** At the end of the loop nothing has been tried just if there was nothing to try. */
  lemma EverythingTried(attempts: seq<IP>, all: seq<IP>, ips: seq<IP>)
    requires multiset(all) == multiset(ips) && Covers(attempts, all)
    requires attempts != [] ==> attempts[0] != NIL && Has(ips, attempts[0])
    ensures Covers(attempts, ips) && (attempts == [] <==> NoAddress(ips))
  {
    CoversPermutation(attempts, all, ips);
    if attempts != [] {
      var i :| 0 <= i < |ips| && Equal(ips[i], attempts[0]);
    }
  }

  /** The loop over the shuffled copy (:138-147), after the confirmed address, if any, has failed. */
  method TryAll(ips: seq<IP>, c: array<IP>, confirmed: IP, works: IP -> bool)
    returns (conn: Option<IP>, attempts: seq<IP>)
    requires multiset(c[..]) == multiset(ips) && Distinct(ips)
    requires confirmed != NIL ==> !works(confirmed) && Has(ips, confirmed)
    ensures confirmed != NIL ==> attempts != [] && attempts[0] == confirmed
    ensures conn.None? ==> AllFailed(attempts, ips, works) && Covers(attempts, ips)
    ensures conn.None? ==> (attempts == [] <==> NoAddress(ips))
    ensures conn.Some? ==>
              && attempts != [] && conn.value == attempts[|attempts| - 1] && works(conn.value)
              && AllFailed(attempts[..|attempts| - 1], ips, works) && NoRepeat(attempts) && Has(ips, conn.value)
  {
    var all := c[..];
    conn, attempts := None, if confirmed == NIL then [] else [confirmed];
    PermutationKeepsDistinct(ips, all);
    for i := 0 to c.Length
      invariant confirmed != NIL ==> attempts != [] && attempts[0] == confirmed
      invariant attempts != [] ==> attempts[0] != NIL
      invariant AllFailed(attempts, ips, works) && FromBefore(attempts, confirmed, all, i)
      invariant Covers(attempts, all[..i])
    {
      var ip := c[i];
      MemberOfSet(ips, all, i);
      if Equal(ip, confirmed) {
        SkippedIsCovered(attempts, confirmed, all, i);
      } else {
        AttemptIsNew(attempts, confirmed, all, i);
        CoversMore(attempts, all, i);
        if works(ip) {
          assert (attempts + [ip])[..|attempts|] == attempts;
          return Some(ip), attempts + [ip];
        }
        attempts := attempts + [ip];
      }
    }
    assert all[..|all|] == all;
    EverythingTried(attempts, all, ips);
  }

  /** `works` says which addresses accept a connection; `rnd` is the random generator of the shuffle.
      The result is the address that was connected to, if any, and whether an error is returned. */
  method DialSet(ips: IPSet, works: IP -> bool, rnd: nat -> nat)
    returns (conn: Option<IP>, err: bool, attempts: seq<IP>)
    requires ips.Valid() && InRange(rnd, |ips.ips|)
    modifies ips`confirmed
    ensures ips.Valid() && NoRepeat(attempts)
    ensures old(ips.confirmed) != NIL ==> attempts != [] && attempts[0] == old(ips.confirmed)
    // The first success stops the search.
    ensures conn.Some? ==>
              && !err && attempts != [] && conn.value == attempts[|attempts| - 1]
              && works(conn.value) && Has(ips.ips, conn.value)
              && AllFailed(attempts[..|attempts| - 1], ips.ips, works)
    ensures conn.None? ==> AllFailed(attempts, ips.ips, works) && Covers(attempts, ips.ips)
    // Without a connection there is an error, unless the set has no address: then dial returns nil and nil.
    ensures conn.None? ==> (err <==> !NoAddress(ips.ips))
    ensures ips.confirmed ==
            if old(ips.confirmed) != NIL && !works(old(ips.confirmed)) then NIL else old(ips.confirmed)
  {
    var confirmed := ips.confirmed;
    if confirmed != NIL {
      if works(confirmed) {
        return Some(confirmed), false, [confirmed];
      }
      EqualIsCanon(confirmed, confirmed);
      ips.Disconfirm(confirmed);
    }
    var c := ips.GetAll(rnd);
    conn, attempts := TryAll(ips.ips, c, confirmed, works);
    err := conn.None? && attempts != [];
  }

  /** On an empty set dial returns neither a connection nor an error. */
  method DialEmptySet(works: IP -> bool, rnd: nat -> nat) returns (conn: Option<IP>, err: bool)
    ensures conn.None? && !err
  {
    var ips := new IPSet();
    var attempts;
    conn, err, attempts := DialSet(ips, works, rnd);
    if attempts != [] {
      assert Has(ips.ips, attempts[0]);
    }
  }
}
