// intra/doh/ipmap/ipmap.go: sets of addresses, one of which may be confirmed to work.
module IpSets {
  import opened Common

  /** net.IP: 4 or 16 bytes; the empty sequence stands for nil. */
  type IP = seq<byte>

  const NIL: IP := []
  const V4_PREFIX: seq<byte> := [0, 0, 0, 0, 0, 0, 0, 0, 0, 0, 255, 255]

  /** net.IP.Equal: an IPv4 address and the same address in IPv6 form are equal. */
  predicate Equal(a: IP, b: IP) {
    if |a| == |b| then a == b
    else if |a| == 4 && |b| == 16 then b[..12] == V4_PREFIX && a == b[12..]
    else if |a| == 16 && |b| == 4 then a[..12] == V4_PREFIX && b == a[12..]
    else false
  }

  /** One form for all equal addresses. */
  function Canon(ip: IP): IP {
    if |ip| == 4 then V4_PREFIX + ip else ip
  }

  /** Equality of addresses is equality of their canonical forms, hence an equivalence. */
  lemma EqualIsCanon(a: IP, b: IP)
    ensures Equal(a, b) <==> Canon(a) == Canon(b)
  {
    if |a| == 4 && |b| == 16 {
      assert Canon(a)[..12] == V4_PREFIX && Canon(a)[12..] == a;
      assert b == b[..12] + b[12..];
    } else if |a| == 16 && |b| == 4 {
      assert Canon(b)[..12] == V4_PREFIX && Canon(b)[12..] == b;
      assert a == a[..12] + a[12..];
    } else if |a| == 4 && |b| == 4 {
      assert Canon(a)[12..] == a && Canon(b)[12..] == b;
    }
  }

  /** An IPv4 address equals its IPv4-mapped IPv6 form (section 2.5.5.2 of RFC 4291), and no other address of
      16 bytes. */
  lemma MappedAddress(a: byte, b: byte, c: byte, d: byte, ip: IP)
    requires |ip| == 16
    ensures Equal([a, b, c, d], ip) <==> ip == [0, 0, 0, 0, 0, 0, 0, 0, 0, 0, 255, 255, a, b, c, d]
    ensures Equal(ip, [a, b, c, d]) <==> ip == [0, 0, 0, 0, 0, 0, 0, 0, 0, 0, 255, 255, a, b, c, d]
  {
    assert ip == ip[..12] + ip[12..];
    assert V4_PREFIX + [a, b, c, d] == [0, 0, 0, 0, 0, 0, 0, 0, 0, 0, 255, 255, a, b, c, d];
    assert ip == V4_PREFIX + [a, b, c, d] ==> ip[..12] == V4_PREFIX && ip[12..] == [a, b, c, d];
  }

  predicate Has(ips: seq<IP>, ip: IP) {
    exists i :: 0 <= i < |ips| && Equal(ips[i], ip)
  }

  function AddTo(ips: seq<IP>, ip: IP): seq<IP> {
    if Has(ips, ip) then ips else ips + [ip]
  }

  function AddAll(ips: seq<IP>, resolved: seq<IP>): seq<IP> {
    if resolved == [] then ips
    else AddTo(AddAll(ips, resolved[..|resolved| - 1]), resolved[|resolved| - 1])
  }

  /** No address twice, in whatever form. */
  predicate Distinct(ips: seq<IP>) {
    forall i, j :: 0 <= i < j < |ips| ==> !Equal(ips[i], ips[j])
  }

  /** The addresses of a set, in canonical form. */
  function Canons(ips: seq<IP>): set<IP> {
    set i | 0 <= i < |ips| :: Canon(ips[i])
  }

  lemma HasIsCanon(ips: seq<IP>, ip: IP)
    ensures Has(ips, ip) <==> Canon(ip) in Canons(ips)
  {
    forall i | 0 <= i < |ips|
      ensures Equal(ips[i], ip) <==> Canon(ips[i]) == Canon(ip)
    {
      EqualIsCanon(ips[i], ip);
    }
  }

  lemma CanonsAppend(ips: seq<IP>, ip: IP)
    ensures Canons(ips + [ip]) == Canons(ips) + {Canon(ip)}
  {
    var more := ips + [ip];
    forall i | 0 <= i < |ips|
      ensures Canon(ips[i]) in Canons(more)
    {
      assert more[i] == ips[i];
    }
    assert more[|ips|] == ip;
  }

  lemma AddToCanons(ips: seq<IP>, ip: IP)
    ensures Canons(AddTo(ips, ip)) == Canons(ips) + {Canon(ip)}
    ensures Distinct(ips) ==> Distinct(AddTo(ips, ip))
    ensures ips <= AddTo(ips, ip)
  {
    HasIsCanon(ips, ip);
    CanonsAppend(ips, ip);
  }

  lemma {:induction false} AddAllCanons(ips: seq<IP>, resolved: seq<IP>)
    ensures Canons(AddAll(ips, resolved)) == Canons(ips) + Canons(resolved)
    ensures Distinct(ips) ==> Distinct(AddAll(ips, resolved))
    ensures ips <= AddAll(ips, resolved)
  {
    if resolved != [] {
      var n := |resolved| - 1;
      AddAllCanons(ips, resolved[..n]);
      AddToCanons(AddAll(ips, resolved[..n]), resolved[n]);
      CanonsAppend(resolved[..n], resolved[n]);
      assert resolved[..n] + [resolved[n]] == resolved;
    }
  }

  /** `confirmed` is nil or one of the addresses. */
  predicate Sound(ips: seq<IP>, confirmed: IP) {
    Distinct(ips) && (confirmed != NIL ==> Has(ips, confirmed))
  }

  predicate InRange(rnd: nat -> nat, n: nat) {
    forall i: nat :: 0 < i < n ==> rnd(i) <= i
  }

  class IPSet {
    var ips: seq<IP>
    var confirmed: IP

    ghost predicate Valid()
      reads this
    {
      Sound(ips, confirmed)
    }

    constructor ()
      ensures Valid() && ips == [] && confirmed == NIL
    {
      ips, confirmed := [], NIL;
    }

    method HasIp(ip: IP) returns (found: bool)
      ensures found <==> Has(ips, ip)
    {
      for i := 0 to |ips|
        invariant !Has(ips[..i], ip)
      {
        if Equal(ips[i], ip) {
          return true;
        }
      }
      assert ips[..|ips|] == ips;
      return false;
    }

    method AddIp(ip: IP)
      modifies this`ips
      ensures ips == AddTo(old(ips), ip)
    {
      var found := HasIp(ip);
      if !found {
        ips := ips + [ip];
      }
    }

    /** Add, with what the resolver returned. */
    method Add(resolved: seq<IP>)
      requires Valid()
      modifies this`ips
      ensures Valid() && ips == AddAll(old(ips), resolved)
      ensures old(ips) <= ips && Canons(ips) == Canons(old(ips)) + Canons(resolved)
    {
      for i := 0 to |resolved|
        invariant ips == AddAll(old(ips), resolved[..i])
      {
        assert resolved[..i + 1][..i] == resolved[..i];
        AddIp(resolved[i]);
      }
      assert resolved[..|resolved|] == resolved;
      AddAllCanons(old(ips), resolved);
      HasIsCanon(old(ips), confirmed);
      HasIsCanon(ips, confirmed);
    }

    /** A shuffled copy: the caller's array is a permutation of the set, which stays as it is.
        `rnd` is the random generator: rand.Shuffle asks it for a number up to i. */
    method GetAll(rnd: nat -> nat) returns (c: array<IP>)
      requires InRange(rnd, |ips|)
      ensures fresh(c) && multiset(c[..]) == multiset(ips)
    {
      var all := ips;
      c := new IP[|all|](i requires 0 <= i < |all| => all[i]);
      assert c[..] == all;
      var i: nat := c.Length;
      while i > 1
        invariant fresh(c) && i <= c.Length && c.Length == |ips|
        invariant multiset(c[..]) == multiset(ips)
      {
        i := i - 1;
        var j := rnd(i);
        c[i], c[j] := c[j], c[i];
      }
    }

    /** The check of Confirm (:145), outside the write lock. */
    method IsConfirmed(ip: IP) returns (same: bool)
      ensures same <==> Equal(ip, confirmed)
    {
      return Equal(ip, confirmed);
    }

    /** The rest of Confirm (:149-153), under the write lock. */
    method SetConfirmed(ip: IP)
      requires Valid()
      modifies this
      ensures Valid() && ips == AddTo(old(ips), ip) && confirmed == ip
    {
      AddIp(ip);
      confirmed := ip;
      AddToCanons(old(ips), ip);
      HasIsCanon(ips, ip);
    }

    /** With nothing else happening; IpSetProtocol says what concurrent calls do. */
    method Confirm(ip: IP)
      requires Valid()
      modifies this
      ensures Valid() && Equal(ip, confirmed)
      ensures old(ips) <= ips && (ip != NIL ==> Canons(ips) == Canons(old(ips)) + {Canon(ip)})
      ensures Equal(ip, old(confirmed)) ==> ips == old(ips) && confirmed == old(confirmed)
    {
      HasIsCanon(ips, confirmed);
      EqualIsCanon(ip, confirmed);
      var same := IsConfirmed(ip);
      if same {
        return;
      }
      SetConfirmed(ip);
      AddToCanons(old(ips), ip);
      EqualIsCanon(ip, ip);
    }

    method Disconfirm(ip: IP)
      requires Valid()
      modifies this`confirmed
      ensures Valid()
      ensures confirmed == (if Equal(ip, old(confirmed)) then NIL else old(confirmed))
    {
      if Equal(ip, confirmed) {
        confirmed := NIL;
      }
    }
  }
}
