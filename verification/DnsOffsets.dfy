/** What packing makes of a position: the bytes that a name or a record adds depend on the length of the
    buffer before it, and on nothing else in it; and moving records further on makes them larger exactly
    if one of them refers to a name that a compression pointer can no longer reach. */
module DnsOffsets {
  import opened Common
  import opened DnsMessage

  lemma {:induction false} PackNameTail(buf: seq<byte>, buf': seq<byte>, dict: Dict, n: Name)
    requires |buf| == |buf'|
    ensures
      var (b, d) := PackName(buf, dict, n);
      var (b', d') := PackName(buf', dict, n);
      d == d' && buf <= b && buf' <= b' && b[|buf|..] == b'[|buf|..]
    decreases |n|
  {
    if n != [] && n !in dict {
      var l := PutLabel(n[0]);
      PackNameTail(buf + l, buf' + l, Entered(buf, dict, n), n[1..]);
      SameTail(buf, buf', l, PackName(buf, dict, n).0, PackName(buf', dict, n).0);
    }
  }

  /** Two extensions that agree after `x` has been added to both agree from where `x` starts. */
  lemma SameTail(buf: seq<byte>, buf': seq<byte>, x: seq<byte>, b: seq<byte>, b': seq<byte>)
    requires |buf| == |buf'| && buf + x <= b && buf' + x <= b' && b[|buf + x|..] == b'[|buf + x|..]
    ensures buf <= b && buf' <= b' && b[|buf|..] == b'[|buf|..]
  {
    assert b == buf + x + b[|buf + x|..] && b' == buf' + x + b'[|buf + x|..];
    assert b[|buf|..] == x + b[|buf + x|..];
    assert b'[|buf|..] == x + b'[|buf + x|..];
  }

  lemma {:induction false} PackQuestionsTail(buf: seq<byte>, buf': seq<byte>, dict: Dict, qs: seq<Question>)
    requires |buf| == |buf'|
    ensures
      var (b, d) := PackQuestions(buf, dict, qs);
      var (b', d') := PackQuestions(buf', dict, qs);
      d == d' && buf <= b && buf' <= b' && b[|buf|..] == b'[|buf|..]
    decreases |qs|
  {
    if qs != [] {
      PackNameTail(buf, buf', dict, qs[0].name);
      var (b, d) := PackQuestion(buf, dict, qs[0]);
      var (b', _) := PackQuestion(buf', dict, qs[0]);
      var x := b[|buf|..];
      assert b == buf + x && b' == buf' + x;
      PackQuestionsTail(b, b', d, qs[1..]);
      SameTail(buf, buf', x, PackQuestions(buf, dict, qs).0, PackQuestions(buf', dict, qs).0);
    }
  }

  lemma {:induction false} PackResourcesTail(buf: seq<byte>, buf': seq<byte>, dict: Dict, rs: seq<Resource>)
    requires |buf| == |buf'| && AllFit(rs)
    ensures
      var (b, d) := PackResources(buf, dict, rs);
      var (b', d') := PackResources(buf', dict, rs);
      buf <= b && buf' <= b' && b[|buf|..] == b'[|buf|..]
    decreases |rs|
  {
    if rs != [] {
      PackNameTail(buf, buf', dict, rs[0].name);
      var (b, d) := PackResource(buf, dict, rs[0]);
      var (b', _) := PackResource(buf', dict, rs[0]);
      var x := b[|buf|..];
      assert b == buf + x && b' == buf' + x;
      PackResourcesTail(b, b', d, rs[1..]);
      SameTail(buf, buf', x, PackResources(buf, dict, rs).0, PackResources(buf', dict, rs).0);
    }
  }

  // Names written further on

  lemma {:induction false} PackNameGrows(buf: seq<byte>, dict: Dict, n: Name)
    ensures |PackName(buf, dict, n).0| > |buf|
    decreases |n|
  {
    if n != [] && n !in dict {
      PackNameGrows(buf + PutLabel(n[0]), Entered(buf, dict, n), n[1..]);
    }
  }

  lemma {:induction false} PackResourcesGrow(buf: seq<byte>, dict: Dict, rs: seq<Resource>)
    requires AllFit(rs)
    ensures |PackResources(buf, dict, rs).0| >= |buf|
    decreases |rs|
  {
    if rs != [] {
      PackNameGrows(buf, dict, rs[0].name);
      var (b, d) := PackResource(buf, dict, rs[0]);
      PackResourcesGrow(b, d, rs[1..]);
    }
  }

  /** Writing `n` makes use of a dictionary entry at the offset `lo` or later. */
  predicate NameReuses(buf: seq<byte>, dict: Dict, n: Name, lo: int)
    decreases |n|
  {
    && n != []
    && if n in dict then lo <= dict[n]
       else NameReuses(buf + PutLabel(n[0]), Entered(buf, dict, n), n[1..], lo)
  }

  /** So does writing the records. */
  predicate Reuses(buf: seq<byte>, dict: Dict, rs: seq<Resource>, lo: int)
    requires AllFit(rs)
    decreases |rs|
  {
    && rs != []
    && (NameReuses(buf, dict, rs[0].name, lo)
        || var (b, d) := PackResource(buf, dict, rs[0]);
           Reuses(b, d, rs[1..], lo))
  }

  /** The entries from `base` on that a pointer cannot reach once they have moved by `k`. */
  function LateFrom(base: nat, k: nat): int {
    if base < POINTER_LIMIT - k then POINTER_LIMIT - k else base
  }

  /** The dictionaries when writing at `buf` and, `k` bytes further on, at `buf'`; the second lacks
      the entries that are out of reach. */
  ghost predicate Shifted(buf: seq<byte>, dict: Dict, buf': seq<byte>, dict': Dict, base: nat, k: nat) {
    && base <= |buf| && |buf'| == |buf| + k
    && forall n :: n in dict' <==> n in dict && dict[n] < LateFrom(base, k)
  }

  lemma EnteredShifts(buf: seq<byte>, dict: Dict, buf': seq<byte>, dict': Dict, base: nat, k: nat, n: Name)
    requires Shifted(buf, dict, buf', dict', base, k) && n != [] && n !in dict
    ensures n !in dict'
    ensures
      var l := PutLabel(n[0]);
      Shifted(buf + l, Entered(buf, dict, n), buf' + l, Entered(buf', dict', n), base, k)
  {
  }

  /** A name that needs no late entry takes as many bytes as before. */
  lemma {:induction false} NameShifts(buf: seq<byte>, dict: Dict, buf': seq<byte>, dict': Dict, base: nat, k: nat,
                                      n: Name)
    requires Shifted(buf, dict, buf', dict', base, k) && !NameReuses(buf, dict, n, LateFrom(base, k))
    ensures
      var (b, d) := PackName(buf, dict, n);
      var (b', d') := PackName(buf', dict', n);
      Shifted(b, d, b', d', base, k)
    decreases |n|
  {
    if n != [] && n !in dict {
      EnteredShifts(buf, dict, buf', dict', base, k, n);
      var l := PutLabel(n[0]);
      NameShifts(buf + l, Entered(buf, dict, n), buf' + l, Entered(buf', dict', n), base, k, n[1..]);
    }
  }

  /** With a name, the dictionary holds what follows its first label, except perhaps for `next`, which is
      being written; or it is too late for entries. */
  predicate SuffixesBut(dict: Dict, size: nat, next: Name) {
    size >= POINTER_LIMIT || forall n :: n in dict && |n| >= 2 && n[1..] != next ==> n[1..] in dict
  }

  lemma EnteredKeepsSuffixes(buf: seq<byte>, dict: Dict, n: Name)
    requires n != [] && n !in dict && SuffixesBut(dict, |buf|, n)
    ensures SuffixesBut(Entered(buf, dict, n), |buf + PutLabel(n[0])|, n[1..])
  {
  }

  lemma {:induction false} NameKeepsSuffixes(buf: seq<byte>, dict: Dict, n: Name)
    requires SuffixesBut(dict, |buf|, n)
    ensures
      var (b, d) := PackName(buf, dict, n);
      SuffixesBut(d, |b|, [])
    decreases |n|
  {
    if n != [] && n !in dict {
      EnteredKeepsSuffixes(buf, dict, n);
      NameKeepsSuffixes(buf + PutLabel(n[0]), Entered(buf, dict, n), n[1..]);
    }
  }

  /** Writing out a name that another dictionary has adds nothing to what that one has. */
  lemma {:induction false} KnownNameAdds(buf: seq<byte>, dict: Dict, n: Name, other: Dict)
    requires dict.Keys <= other.Keys && (n == [] || n in other) && SuffixesBut(other, |buf|, [])
    ensures PackName(buf, dict, n).1.Keys <= other.Keys
    decreases |n|
  {
    if n != [] && n !in dict {
      if |buf| < POINTER_LIMIT {
        KnownNameAdds(buf + PutLabel(n[0]), Entered(buf, dict, n), n[1..], other);
      } else {
        LateNameAdds(buf, dict, n);
      }
    }
  }

  lemma {:induction false} LateNameAdds(buf: seq<byte>, dict: Dict, n: Name)
    requires |buf| >= POINTER_LIMIT
    ensures PackName(buf, dict, n).1 == dict
    decreases |n|
  {
    if n != [] && n !in dict {
      LateNameAdds(buf + PutLabel(n[0]), dict, n[1..]);
    }
  }

  /** With fewer entries and further on, a name takes no fewer bytes, and adds no other entries. */
  predicate NoSmaller(buf: seq<byte>, p: (seq<byte>, Dict), buf': seq<byte>, p': (seq<byte>, Dict)) {
    |p.0| - |buf| <= |p'.0| - |buf'| && p'.1.Keys <= p.1.Keys
  }

  lemma WrittenOut(buf: seq<byte>, dict: Dict, n: Name)
    requires n != [] && n !in dict
    ensures |PackName(buf, dict, n).0| > |buf| + 2
  {
    PackNameGrows(buf + PutLabel(n[0]), Entered(buf, dict, n), n[1..]);
  }

  lemma PointedAt(buf: seq<byte>, dict: Dict, n: Name)
    requires n != [] && n in dict
    ensures |PackName(buf, dict, n).0| == |buf| + 2 && PackName(buf, dict, n).1 == dict
  {
  }

  /** A name that has an entry is written out where it has none. */
  lemma MissingEntryCosts(buf: seq<byte>, dict: Dict, buf': seq<byte>, dict': Dict, n: Name)
    requires |buf| <= |buf'| && dict'.Keys <= dict.Keys && SuffixesBut(dict, |buf|, n)
    requires n != [] && n in dict && n !in dict'
    ensures NoSmaller(buf, PackName(buf, dict, n), buf', PackName(buf', dict', n))
    ensures |PackName(buf, dict, n).0| - |buf| < |PackName(buf', dict', n).0| - |buf'|
  {
    PointedAt(buf, dict, n);
    WrittenOut(buf', dict', n);
    KnownNameAdds(buf', dict', n, dict);
  }

  lemma {:induction false} NameGrows(buf: seq<byte>, dict: Dict, buf': seq<byte>, dict': Dict, n: Name)
    requires |buf| <= |buf'| && dict'.Keys <= dict.Keys && SuffixesBut(dict, |buf|, n)
    ensures NoSmaller(buf, PackName(buf, dict, n), buf', PackName(buf', dict', n))
    decreases |n|
  {
    if n != [] && n !in dict {
      EnteredKeepsSuffixes(buf, dict, n);
      NameGrows(buf + PutLabel(n[0]), Entered(buf, dict, n), buf' + PutLabel(n[0]), Entered(buf', dict', n), n[1..]);
    } else if n != [] && n !in dict' {
      MissingEntryCosts(buf, dict, buf', dict', n);
    }
  }

  /** A name that needs a late entry takes more bytes than before. */
  lemma {:induction false} NameSpills(buf: seq<byte>, dict: Dict, buf': seq<byte>, dict': Dict, base: nat, k: nat,
                                      n: Name)
    requires Shifted(buf, dict, buf', dict', base, k) && SuffixesBut(dict, |buf|, n)
    requires NameReuses(buf, dict, n, LateFrom(base, k))
    ensures NoSmaller(buf, PackName(buf, dict, n), buf', PackName(buf', dict', n))
    ensures |PackName(buf, dict, n).0| + k < |PackName(buf', dict', n).0|
    decreases |n|
  {
    if n in dict {
      MissingEntryCosts(buf, dict, buf', dict', n);
    } else {
      EnteredShifts(buf, dict, buf', dict', base, k, n);
      EnteredKeepsSuffixes(buf, dict, n);
      var l := PutLabel(n[0]);
      NameSpills(buf + l, Entered(buf, dict, n), buf' + l, Entered(buf', dict', n), base, k, n[1..]);
    }
  }

  // Records written further on

  lemma {:induction false} ResourcesGrow(buf: seq<byte>, dict: Dict, buf': seq<byte>, dict': Dict, rs: seq<Resource>)
    requires AllFit(rs) && |buf| <= |buf'| && dict'.Keys <= dict.Keys && SuffixesBut(dict, |buf|, [])
    ensures |PackResources(buf, dict, rs).0| - |buf| <= |PackResources(buf', dict', rs).0| - |buf'|
    decreases |rs|
  {
    if rs != [] {
      NameGrows(buf, dict, buf', dict', rs[0].name);
      NameKeepsSuffixes(buf, dict, rs[0].name);
      var (b, d) := PackResource(buf, dict, rs[0]);
      var (b', d') := PackResource(buf', dict', rs[0]);
      ResourcesGrow(b, d, b', d', rs[1..]);
    }
  }

  /** Records that have moved by `k` take as many bytes as before if and only if none of them uses an entry
      that has slipped out of reach. */
  lemma {:induction false} ResourcesShift(buf: seq<byte>, dict: Dict, buf': seq<byte>, dict': Dict, base: nat, k: nat,
                                          rs: seq<Resource>)
    requires AllFit(rs) && Shifted(buf, dict, buf', dict', base, k) && SuffixesBut(dict, |buf|, [])
    ensures |PackResources(buf, dict, rs).0| + k <= |PackResources(buf', dict', rs).0|
    ensures |PackResources(buf, dict, rs).0| + k == |PackResources(buf', dict', rs).0|
       <==> !Reuses(buf, dict, rs, LateFrom(base, k))
    decreases |rs|
  {
    if rs != [] {
      NameKeepsSuffixes(buf, dict, rs[0].name);
      var (b, d) := PackResource(buf, dict, rs[0]);
      var (b', d') := PackResource(buf', dict', rs[0]);
      if NameReuses(buf, dict, rs[0].name, LateFrom(base, k)) {
        NameSpills(buf, dict, buf', dict', base, k, rs[0].name);
        ResourcesGrow(b, d, b', d', rs[1..]);
      } else {
        NameShifts(buf, dict, buf', dict', base, k, rs[0].name);
        ResourcesShift(b, d, b', d', base, k, rs[1..]);
      }
    }
  }

  // Buffers that are far from the limit

  predicate Below(dict: Dict, size: nat) {
    forall n :: n in dict ==> dict[n] < size
  }

  lemma {:induction false} ShortNameReusesNothing(buf: seq<byte>, dict: Dict, n: Name, lo: int)
    requires Below(dict, |buf|) && |PackName(buf, dict, n).0| <= lo
    ensures !NameReuses(buf, dict, n, lo) && Below(PackName(buf, dict, n).1, |PackName(buf, dict, n).0|)
    decreases |n|
  {
    PackNameGrows(buf, dict, n);
    if n != [] && n !in dict {
      ShortNameReusesNothing(buf + PutLabel(n[0]), Entered(buf, dict, n), n[1..], lo);
    }
  }

  /** Records that end before `lo` use no entry from `lo` on. */
  lemma {:induction false} ShortRecordsReuseNothing(buf: seq<byte>, dict: Dict, rs: seq<Resource>, lo: int)
    requires AllFit(rs) && Below(dict, |buf|) && |PackResources(buf, dict, rs).0| <= lo
    ensures !Reuses(buf, dict, rs, lo)
    decreases |rs|
  {
    if rs != [] {
      var (b, d) := PackResource(buf, dict, rs[0]);
      PackResourcesGrow(b, d, rs[1..]);
      ShortNameReusesNothing(buf, dict, rs[0].name, lo);
      ShortRecordsReuseNothing(b, d, rs[1..], lo);
    }
  }

  // What packing a message leaves behind

  lemma {:induction false} QuestionsKeepSuffixes(buf: seq<byte>, dict: Dict, qs: seq<Question>)
    requires SuffixesBut(dict, |buf|, [])
    ensures
      var (b, d) := PackQuestions(buf, dict, qs);
      SuffixesBut(d, |b|, [])
    decreases |qs|
  {
    if qs != [] {
      NameKeepsSuffixes(buf, dict, qs[0].name);
      var (b, d) := PackQuestion(buf, dict, qs[0]);
      QuestionsKeepSuffixes(b, d, qs[1..]);
    }
  }

  lemma {:induction false} ResourcesKeepSuffixes(buf: seq<byte>, dict: Dict, rs: seq<Resource>)
    requires AllFit(rs) && SuffixesBut(dict, |buf|, [])
    ensures
      var (b, d) := PackResources(buf, dict, rs);
      SuffixesBut(d, |b|, [])
    decreases |rs|
  {
    if rs != [] {
      NameKeepsSuffixes(buf, dict, rs[0].name);
      var (b, d) := PackResource(buf, dict, rs[0]);
      ResourcesKeepSuffixes(b, d, rs[1..]);
    }
  }
}
