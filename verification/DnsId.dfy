/** What zeroing the ID of a message does to the rest of it.  A compression pointer can lead anywhere before
    it, into the header too, so that a name may be made of the ID's own bytes; every other name stays. */
module DnsId {
  import opened Common
  import opened DnsMessage

  /** Zeroing the ID leaves the name at `off` as it is: a pointer to the ID leads to an empty name. */
  predicate NameIgnoresId(msg: seq<byte>, off: nat, start: nat)
    requires start <= off
    decreases start, |msg| - off
  {
    if off >= |msg| || msg[off] == 0 then true
    else if msg[off] < 64 then
      var size: int := msg[off];
      off + 1 + size <= |msg| ==> NameIgnoresId(msg, off + 1 + size, start)
    else if msg[off] >= 192 && off + 2 <= |msg| then
      var target := PointerAt(msg, off);
      target < start ==>
        if target < 2 then UnpackName(msg, target, target).Some? ==> UnpackName(msg, target, target).value.0 == []
        else NameIgnoresId(msg, target, target)
    else true
  }

  predicate QuestionsIgnoreId(msg: seq<byte>, off: nat, count: nat)
    decreases count
  {
    count > 0 ==>
      && NameIgnoresId(msg, off, off)
      && var q := UnpackQuestion(msg, off);
         q.Some? ==> QuestionsIgnoreId(msg, q.value.1, count - 1)
  }

  predicate ResourcesIgnoreId(msg: seq<byte>, off: nat, count: nat)
    decreases count
  {
    count > 0 ==>
      && NameIgnoresId(msg, off, off)
      && var r := UnpackResource(msg, off);
         r.Some? ==> ResourcesIgnoreId(msg, r.value.1, count - 1)
  }

  function RecordCount(msg: seq<byte>): nat
    requires |msg| >= 12
  {
    WordAt(msg, 6) as int + WordAt(msg, 8) + WordAt(msg, 10)
  }

  /** Zeroing the ID leaves every name of the message as it is. */
  predicate IgnoresId(msg: seq<byte>) {
    |msg| >= 12 ==>
      && QuestionsIgnoreId(msg, 12, WordAt(msg, 4))
      && var qs := UnpackQuestions(msg, 12, WordAt(msg, 4));
         qs.Some? ==> ResourcesIgnoreId(msg, qs.value.1, RecordCount(msg))
  }

  /** `z` is `msg` with the ID 0. */
  predicate Zeroed(msg: seq<byte>, z: seq<byte>) {
    |msg| == |z| && |msg| >= 2 && z[0] == 0 && z[1] == 0 && msg[2..] == z[2..]
  }

  // What is read from behind the ID

  lemma SameByte(msg: seq<byte>, z: seq<byte>, i: nat)
    requires Zeroed(msg, z) && 2 <= i < |msg|
    ensures msg[i] == z[i]
  {
    assert msg[i] == msg[2..][i - 2] && z[i] == z[2..][i - 2];
  }

  lemma SliceOfDrop(s: seq<byte>, lo: nat, hi: nat)
    requires 2 <= lo <= hi <= |s|
    ensures s[2..][lo - 2..hi - 2] == s[lo..hi]
  {
  }

  lemma SameSlice(msg: seq<byte>, z: seq<byte>, lo: nat, hi: nat)
    requires Zeroed(msg, z) && 2 <= lo <= hi <= |msg|
    ensures msg[lo..hi] == z[lo..hi]
  {
    SliceOfDrop(msg, lo, hi);
    SliceOfDrop(z, lo, hi);
  }

  lemma SameWord(msg: seq<byte>, z: seq<byte>, off: nat)
    requires Zeroed(msg, z) && 2 <= off && off + 2 <= |msg|
    ensures WordAt(msg, off) == WordAt(z, off)
  {
    SameByte(msg, z, off);
    SameByte(msg, z, off + 1);
  }

  // Names

  /** What could be read still can, and ends where it ended; it is the same if and only if `same`. */
  predicate Stays<T(==)>(r: Option<(T, nat)>, z: Option<(T, nat)>, same: bool) {
    r.Some? ==> z.Some? && z.value.1 == r.value.1 && (z.value.0 == r.value.0 <==> same)
  }

  lemma SameCons<T>(x: T, xs: seq<T>, y: T, ys: seq<T>)
    ensures [x] + xs == [y] + ys <==> x == y && xs == ys
  {
    assert ([x] + xs)[0] == x && ([y] + ys)[0] == y;
    assert ([x] + xs)[1..] == xs && ([y] + ys)[1..] == ys;
  }

  /** The name that a pointer to the ID leads to is empty once the ID is 0. */
  lemma NameOfZeroId(msg: seq<byte>, z: seq<byte>, target: nat)
    requires Zeroed(msg, z) && target < 2
    ensures UnpackName(z, target, target) == Some(([], target + 1))
  {
  }

  lemma {:induction false} ZeroedName(msg: seq<byte>, z: seq<byte>, off: nat, start: nat)
    requires start <= off && off >= 2 && Zeroed(msg, z)
    ensures Stays(UnpackName(msg, off, start), UnpackName(z, off, start), NameIgnoresId(msg, off, start))
    decreases start, |msg| - off
  {
    if off < |msg| {
      SameByte(msg, z, off);
      var c: int := msg[off];
      if 0 < c < 64 && off + 1 + c <= |msg| {
        ZeroedLabel(msg, z, off, start);
      } else if c >= 192 && off + 2 <= |msg| {
        SameByte(msg, z, off + 1);
        var target := PointerAt(msg, off);
        if target < start {
          if target < 2 {
            NameOfZeroId(msg, z, target);
          } else {
            ZeroedName(msg, z, target, target);
          }
        }
      }
    }
  }

  lemma {:induction false} ZeroedLabel(msg: seq<byte>, z: seq<byte>, off: nat, start: nat)
    requires start <= off && off >= 2 && Zeroed(msg, z)
    requires off < |msg| && 0 < msg[off] < 64 && off + 1 + msg[off] as int <= |msg|
    ensures Stays(UnpackName(msg, off, start), UnpackName(z, off, start), NameIgnoresId(msg, off, start))
    decreases start, |msg| - off, 0
  {
    SameByte(msg, z, off);
    var next := off + 1 + msg[off] as int;
    SameSlice(msg, z, off + 1, next);
    ZeroedName(msg, z, next, start);
    var rest, zest := UnpackName(msg, next, start), UnpackName(z, next, start);
    if rest.Some? {
      var l: Label := msg[off + 1..next];
      SameCons(l, zest.value.0, l, rest.value.0);
    }
  }

  // Questions

  lemma ZeroedQuestion(msg: seq<byte>, z: seq<byte>, off: nat)
    requires off >= 2 && Zeroed(msg, z)
    ensures Stays(UnpackQuestion(msg, off), UnpackQuestion(z, off), NameIgnoresId(msg, off, off))
  {
    ZeroedName(msg, z, off, off);
    if UnpackQuestion(msg, off).Some? {
      var p := UnpackName(msg, off, off).value.1;
      SameWord(msg, z, p);
      SameWord(msg, z, p + 2);
    }
  }

  lemma {:induction false} ZeroedQuestions(msg: seq<byte>, z: seq<byte>, off: nat, count: nat)
    requires off >= 2 && Zeroed(msg, z)
    ensures Stays(UnpackQuestions(msg, off, count), UnpackQuestions(z, off, count), QuestionsIgnoreId(msg, off, count))
    decreases count
  {
    if count > 0 && UnpackQuestions(msg, off, count).Some? {
      ZeroedQuestion(msg, z, off);
      var (q, next) := UnpackQuestion(msg, off).value;
      ZeroedQuestions(msg, z, next, count - 1);
      var qs, zs := UnpackQuestions(msg, next, count - 1).value.0, UnpackQuestions(z, next, count - 1).value.0;
      SameCons(UnpackQuestion(z, off).value.0, zs, q, qs);
    }
  }

  // Records

  /** The fields of a record, after its owner name. */
  predicate SameFields(msg: seq<byte>, z: seq<byte>, p: nat) {
    && |msg| == |z|
    && (p + 10 <= |msg| ==>
          && WordAt(msg, p) == WordAt(z, p) && WordAt(msg, p + 2) == WordAt(z, p + 2)
          && WordAt(msg, p + 4) == WordAt(z, p + 4) && WordAt(msg, p + 6) == WordAt(z, p + 6)
          && WordAt(msg, p + 8) == WordAt(z, p + 8)
          && var end := p + 10 + WordAt(msg, p + 8) as int;
             end <= |msg| ==> msg[p + 10..end] == z[p + 10..end])
  }

  lemma FieldsMatch(msg: seq<byte>, z: seq<byte>, p: nat)
    requires Zeroed(msg, z) && p >= 2
    ensures SameFields(msg, z, p)
  {
    if p + 10 <= |msg| {
      SameWord(msg, z, p);
      SameWord(msg, z, p + 2);
      SameWord(msg, z, p + 4);
      SameWord(msg, z, p + 6);
      SameWord(msg, z, p + 8);
      var size: int := WordAt(msg, p + 8);
      if p + 10 + size <= |msg| {
        SameSlice(msg, z, p + 10, p + 10 + size);
      }
    }
  }

  lemma RestStays(msg: seq<byte>, z: seq<byte>, name: Name, zname: Name, p: nat)
    requires SameFields(msg, z, p)
    ensures Stays(UnpackRest(msg, name, p), UnpackRest(z, zname, p), zname == name)
  {
  }

  lemma ZeroedResource(msg: seq<byte>, z: seq<byte>, off: nat)
    requires off >= 2 && Zeroed(msg, z)
    ensures Stays(UnpackResource(msg, off), UnpackResource(z, off), NameIgnoresId(msg, off, off))
  {
    ZeroedName(msg, z, off, off);
    if UnpackName(msg, off, off).Some? {
      var (name, p) := UnpackName(msg, off, off).value;
      FieldsMatch(msg, z, p);
      RestStays(msg, z, name, UnpackName(z, off, off).value.0, p);
    }
  }

  lemma ResourceEnds(msg: seq<byte>, off: nat)
    requires UnpackResource(msg, off).Some?
    ensures UnpackResource(msg, off).value.1 > off
  {
  }

  lemma {:induction false} ZeroedResources(msg: seq<byte>, z: seq<byte>, off: nat, count: nat)
    requires off >= 2 && Zeroed(msg, z)
    ensures Stays(UnpackResources(msg, off, count), UnpackResources(z, off, count), ResourcesIgnoreId(msg, off, count))
    decreases count
  {
    if count > 0 && UnpackResources(msg, off, count).Some? {
      ZeroedResource(msg, z, off);
      ResourceEnds(msg, off);
      var (r, next) := UnpackResource(msg, off).value;
      ZeroedResources(msg, z, next, count - 1);
      var rs, zs := UnpackResources(msg, next, count - 1).value.0, UnpackResources(z, next, count - 1).value.0;
      SameCons(UnpackResource(z, off).value.0, zs, r, rs);
    }
  }

  // Messages

  /** The message made of its header and its parts. */
  function Assembled(msg: seq<byte>, qs: seq<Question>, rs: seq<Resource>): Message
    requires |msg| >= 12 && |rs| == RecordCount(msg)
  {
    var an: int, ns: int := WordAt(msg, 6), WordAt(msg, 8);
    Message(WordAt(msg, 0), FlagsOf(msg[2], msg[3]), qs, rs[..an], rs[an..an + ns], rs[an + ns..])
  }

  /** The sections of a message, and where the questions and the records end. */
  predicate HasParts(msg: seq<byte>, qs: seq<Question>, mid: nat, rs: seq<Resource>, end: nat) {
    && |msg| >= 12 && |rs| == RecordCount(msg)
    && UnpackQuestions(msg, 12, WordAt(msg, 4)) == Some((qs, mid))
    && UnpackResources(msg, mid, RecordCount(msg)) == Some((rs, end))
  }

  lemma UnpackAssembles(msg: seq<byte>, qs: seq<Question>, mid: nat, rs: seq<Resource>, end: nat)
    requires HasParts(msg, qs, mid, rs, end)
    ensures Unpack(msg) == Some(Assembled(msg, qs, rs))
  {
  }

  lemma UnpackedHasParts(msg: seq<byte>) returns (qs: seq<Question>, mid: nat, rs: seq<Resource>, end: nat)
    requires Unpack(msg).Some?
    ensures HasParts(msg, qs, mid, rs, end) && Unpack(msg) == Some(Assembled(msg, qs, rs))
  {
    var questions := UnpackQuestions(msg, 12, WordAt(msg, 4)).value;
    qs, mid := questions.0, questions.1;
    var records := UnpackResources(msg, mid, RecordCount(msg)).value;
    rs, end := records.0, records.1;
  }

  lemma {:induction false} QuestionsEnd(msg: seq<byte>, off: nat, count: nat)
    requires UnpackQuestions(msg, off, count).Some?
    ensures UnpackQuestions(msg, off, count).value.1 >= off
    decreases count
  {
    if count > 0 {
      QuestionsEnd(msg, UnpackQuestion(msg, off).value.1, count - 1);
    }
  }

  lemma SameHeader(msg: seq<byte>, z: seq<byte>)
    requires Zeroed(msg, z) && |msg| >= 12
    ensures WordAt(msg, 4) == WordAt(z, 4) && WordAt(msg, 6) == WordAt(z, 6)
    ensures WordAt(msg, 8) == WordAt(z, 8) && WordAt(msg, 10) == WordAt(z, 10)
    ensures msg[2] == z[2] && msg[3] == z[3]
  {
    SameWord(msg, z, 4);
    SameWord(msg, z, 6);
    SameWord(msg, z, 8);
    SameWord(msg, z, 10);
    SameByte(msg, z, 2);
    SameByte(msg, z, 3);
  }

  lemma ZeroedParts(msg: seq<byte>, z: seq<byte>, qs: seq<Question>, mid: nat, rs: seq<Resource>, end: nat)
    returns (zqs: seq<Question>, zrs: seq<Resource>)
    requires Zeroed(msg, z) && HasParts(msg, qs, mid, rs, end)
    ensures HasParts(z, zqs, mid, zrs, end)
    ensures zqs == qs && zrs == rs <==> IgnoresId(msg)
  {
    SameHeader(msg, z);
    QuestionsEnd(msg, 12, WordAt(msg, 4));
    ZeroedQuestions(msg, z, 12, WordAt(msg, 4));
    ZeroedResources(msg, z, mid, RecordCount(msg));
    zqs := UnpackQuestions(z, 12, WordAt(z, 4)).value.0;
    zrs := UnpackResources(z, mid, RecordCount(z)).value.0;
  }

  lemma SameSections(rs: seq<Resource>, zrs: seq<Resource>, an: nat, ns: nat)
    requires |rs| == |zrs| && an + ns <= |rs|
    ensures zrs == rs <==>
            zrs[..an] == rs[..an] && zrs[an..an + ns] == rs[an..an + ns] && zrs[an + ns..] == rs[an + ns..]
  {
    assert rs == rs[..an] + rs[an..an + ns] + rs[an + ns..];
    assert zrs == zrs[..an] + zrs[an..an + ns] + zrs[an + ns..];
  }

  lemma SameAssembly(msg: seq<byte>, z: seq<byte>, qs: seq<Question>, zqs: seq<Question>, rs: seq<Resource>,
                     zrs: seq<Resource>)
    requires Zeroed(msg, z) && |msg| >= 12 && |rs| == RecordCount(msg) && |zrs| == RecordCount(z)
    ensures Assembled(z, zqs, zrs) == Assembled(msg, qs, rs).(id := 0) <==> zqs == qs && zrs == rs
  {
    SameHeader(msg, z);
    SameSections(rs, zrs, WordAt(msg, 6), WordAt(msg, 8));
  }

  /** A message that can be read still can with the ID 0; and it is otherwise the same message if and only
      if every pointer to the ID leads to an empty name. */
  lemma ZeroedId(msg: seq<byte>, z: seq<byte>)
    requires Zeroed(msg, z) && Unpack(msg).Some?
    ensures Unpack(z).Some?
    ensures Unpack(z) == Some(Unpack(msg).value.(id := 0)) <==> IgnoresId(msg)
  {
    var qs, mid, rs, end := UnpackedHasParts(msg);
    var zqs, zrs := ZeroedParts(msg, z, qs, mid, rs, end);
    UnpackAssembles(z, zqs, mid, zrs, end);
    SameAssembly(msg, z, qs, zqs, rs, zrs);
  }
}
