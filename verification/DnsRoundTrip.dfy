/** The codec of DnsMessage loses nothing: unpacking what was packed gives the message back. */
module DnsRoundTrip {
  import opened Common
  import opened DnsMessage

  // Names

  /** Reading a name does not depend on what follows the bytes it was read from. */
  lemma {:induction false} UnpackNameExtends(buf: seq<byte>, off: nat, start: nat, msg: seq<byte>)
    requires start <= off && UnpackName(buf, off, start).Some? && buf <= msg
    ensures UnpackName(msg, off, start) == UnpackName(buf, off, start)
    decreases start, |buf| - off
  {
    var c: int := buf[off];
    if 0 < c < 64 {
      var next := off + 1 + c;
      UnpackNameExtends(buf, next, start, msg);
      assert msg[off + 1..next] == buf[off + 1..next];
    } else if c >= 192 {
      UnpackNameExtends(buf, PointerAt(buf, off), PointerAt(buf, off), msg);
    }
  }

  /** `n` can be read at `off`. */
  predicate Decodes(buf: seq<byte>, off: nat, n: Name) {
    UnpackName(buf, off, off).Some? && UnpackName(buf, off, off).value.0 == n
  }

  /** Each suffix in the dictionary can be read where the dictionary says. */
  predicate DictOk(buf: seq<byte>, dict: Dict) {
    forall k :: k in dict ==> dict[k] < |buf| && Decodes(buf, dict[k], k)
  }

  /** While a name is being written, the dictionary already holds its longer suffixes, which cannot be
      read yet; the entries that the rest of the name can meet are all fine and lie before `base`. */
  predicate DictOkFor(buf: seq<byte>, dict: Dict, base: nat, size: nat) {
    forall k :: k in dict && |k| <= size ==> dict[k] < base && Decodes(buf, dict[k], k)
  }

  /** What writing a name adds to the dictionary can be read back. */
  predicate NewEntriesOk(before: Dict, after: Dict, buf: seq<byte>, from: nat, size: nat) {
    && (forall k :: k in before ==> k in after && after[k] == before[k])
    && (forall k :: k in after && k !in before ==> |k| <= size && from <= after[k] < |buf| && Decodes(buf, after[k], k))
  }

  lemma DictExtends(buf: seq<byte>, dict: Dict, msg: seq<byte>)
    requires DictOk(buf, dict) && buf <= msg
    ensures DictOk(msg, dict)
  {
    forall k | k in dict
      ensures dict[k] < |msg| && Decodes(msg, dict[k], k)
    {
      UnpackNameExtends(buf, dict[k], dict[k], msg);
    }
  }

  lemma PointerReads(buf: seq<byte>, o: Offset, start: nat)
    requires o < start <= |buf| && UnpackName(buf, o, o).Some?
    ensures UnpackName(buf + PutPointer(o), |buf|, start) == Some((UnpackName(buf, o, o).value.0, |buf| + 2))
  {
    var b := buf + PutPointer(o);
    assert b[|buf|] == 192 + o / 256 && b[|buf| + 1] == o % 256;
    assert PointerAt(b, |buf|) == o;
    UnpackNameExtends(buf, o, o, b);
  }

  /** The first label of `n` at the end of `buf`, in front of the rest of `n`. */
  lemma LabelReads(buf: seq<byte>, n: Name, msg: seq<byte>, start: nat)
    requires start <= |buf| && n != [] && buf + PutLabel(n[0]) <= msg
    requires UnpackName(msg, |buf| + 1 + |n[0]|, start) == Some((n[1..], |msg|))
    ensures buf < msg && UnpackName(msg, |buf|, start) == Some((n, |msg|))
  {
    var l, next := n[0], |buf| + 1 + |n[0]|;
    var head := buf + PutLabel(l);
    assert msg[|buf|] == head[|buf|] == |l|;
    assert msg[|buf| + 1..next] == head[|buf| + 1..next] == l;
    assert [l] + n[1..] == n;
  }

  lemma LabelStepOk(buf: seq<byte>, dict: Dict, n: Name, base: nat)
    requires base <= |buf| && DictOkFor(buf, dict, base, |n|) && n != [] && n !in dict
    ensures DictOkFor(buf + PutLabel(n[0]), Entered(buf, dict, n), base, |n| - 1)
  {
    forall k | k in dict && |k| <= |n|
      ensures dict[k] < base && Decodes(buf + PutLabel(n[0]), dict[k], k)
    {
      UnpackNameExtends(buf, dict[k], dict[k], buf + PutLabel(n[0]));
    }
  }

  /** `b` is `buf` followed by `n`, in a form that can be read. */
  predicate Appended(buf: seq<byte>, b: seq<byte>, n: Name, start: nat)
    requires start <= |buf|
  {
    buf < b && UnpackName(b, |buf|, start) == Some((n, |b|))
  }

  lemma RootReads(buf: seq<byte>, dict: Dict, start: nat)
    requires start <= |buf|
    ensures Appended(buf, PackName(buf, dict, []).0, [], start)
  {
  }

  /** The name is in the dictionary. */
  lemma KnownNameReads(buf: seq<byte>, dict: Dict, n: Name, start: nat)
    requires start <= |buf| && n in dict && dict[n] < start && Decodes(buf, dict[n], n)
    ensures Appended(buf, PackName(buf, dict, n).0, n, start)
  {
    if n == [] {
      RootReads(buf, dict, start);
    } else {
      PointerReads(buf, dict[n], start);
    }
  }

  lemma LabelledNameReads(buf: seq<byte>, dict: Dict, n: Name, start: nat)
    requires start <= |buf| && n != [] && n !in dict
    requires
      var buf1, dict1 := buf + PutLabel(n[0]), Entered(buf, dict, n);
      Appended(buf1, PackName(buf1, dict1, n[1..]).0, n[1..], start)
    ensures Appended(buf, PackName(buf, dict, n).0, n, start)
  {
    var b := PackName(buf + PutLabel(n[0]), Entered(buf, dict, n), n[1..]).0;
    LabelReads(buf, n, b, start);
  }

  lemma {:induction false} PackNameReads(buf: seq<byte>, dict: Dict, n: Name, base: nat, start: nat)
    requires base <= start <= |buf| && DictOkFor(buf, dict, base, |n|)
    ensures Appended(buf, PackName(buf, dict, n).0, n, start)
    decreases |n|
  {
    if n == [] {
      RootReads(buf, dict, start);
    } else if n in dict {
      KnownNameReads(buf, dict, n, start);
    } else {
      LabelStepOk(buf, dict, n, base);
      PackNameReads(buf + PutLabel(n[0]), Entered(buf, dict, n), n[1..], base, start);
      LabelledNameReads(buf, dict, n, start);
    }
  }

  /** A name's own entry joins those of its shorter suffixes. */
  lemma EntryJoins(buf: seq<byte>, dict: Dict, n: Name, after: Dict, b: seq<byte>)
    requires n != [] && n !in dict && |buf| < |b| && Decodes(b, |buf|, n)
    requires NewEntriesOk(Entered(buf, dict, n), after, b, |buf| + 1 + |n[0]|, |n| - 1)
    ensures NewEntriesOk(dict, after, b, |buf|, |n|)
  {
    var entered := Entered(buf, dict, n);
    forall k | k in after && k !in dict
      ensures |k| <= |n| && |buf| <= after[k] < |b| && Decodes(b, after[k], k)
    {
      if k in entered {
        assert k == n && after[k] == |buf|;
      }
    }
  }

  lemma {:induction false} PackNameEntries(buf: seq<byte>, dict: Dict, n: Name, base: nat)
    requires base <= |buf| && DictOkFor(buf, dict, base, |n|)
    ensures
      var (b, d) := PackName(buf, dict, n);
      NewEntriesOk(dict, d, b, |buf|, |n|)
    decreases |n|
  {
    if n != [] && n !in dict {
      var buf1, dict1 := buf + PutLabel(n[0]), Entered(buf, dict, n);
      LabelStepOk(buf, dict, n, base);
      PackNameEntries(buf1, dict1, n[1..], base);
      PackNameReads(buf, dict, n, base, |buf|);
      var (b, d) := PackName(buf1, dict1, n[1..]);
      assert PackName(buf, dict, n) == (b, d);
      EntryJoins(buf, dict, n, d, b);
    }
  }

  lemma PackNameOk(buf: seq<byte>, dict: Dict, n: Name)
    requires DictOk(buf, dict)
    ensures
      var (b, d) := PackName(buf, dict, n);
      buf < b && UnpackName(b, |buf|, |buf|) == Some((n, |b|)) && DictOk(b, d)
  {
    PackNameReads(buf, dict, n, |buf|, |buf|);
    PackNameEntries(buf, dict, n, |buf|);
    DictExtends(buf, dict, PackName(buf, dict, n).0);
  }

  // Fields

  lemma HighBitsRead(qr: bool, op: Nibble, aa: bool, tc: bool, rd: bool)
    ensures
      var high := Bit(qr, 128) + op * 8 + Bit(aa, 4) + Bit(tc, 2) + Bit(rd, 1);
      && (high / 128 == 1 <==> qr) && high / 8 % 16 == op && (high / 4 % 2 == 1 <==> aa)
      && (high / 2 % 2 == 1 <==> tc) && (high % 2 == 1 <==> rd)
  {
    var low := Bit(aa, 4) + Bit(tc, 2) + Bit(rd, 1);
    var high := Bit(qr, 128) + op * 8 + low;
    assert high / 8 == Bit(qr, 16) + op;
    assert high / 4 == (Bit(qr, 16) + op) * 2 + Bit(aa, 1);
    assert high / 2 == ((Bit(qr, 16) + op) * 2 + Bit(aa, 1)) * 2 + Bit(tc, 1);
  }

  lemma FlagsRead(f: Flags)
    ensures FlagsOf(PutFlags(f)[0], PutFlags(f)[1]) == f
  {
    HighBitsRead(f.response, f.opCode, f.authoritative, f.truncated, f.recursionDesired);
  }

  /** A number at `off` of a message. */
  lemma WordReads(v: Word, msg: seq<byte>, off: nat)
    requires off + 2 <= |msg| && msg[off..off + 2] == PutWord(v)
    ensures WordAt(msg, off) == v
  {
    assert msg[off] == msg[off..off + 2][0] == v / 256;
    assert msg[off + 1] == msg[off..off + 2][1] == v % 256;
  }

  /** The first option of a list. */
  lemma OptionReads(o: EdnsOption, rest: seq<byte>)
    requires |o.data| < U16
    ensures
      var b := PutWord(o.code) + PutWord(|o.data|) + o.data + rest;
      && WordAt(b, 0) == o.code && WordAt(b, 2) == |o.data|
      && b[4..4 + |o.data|] == o.data && b[4 + |o.data|..] == rest
  {
    var b := PutWord(o.code) + PutWord(|o.data|) + o.data + rest;
    assert b[0..2] == PutWord(o.code) && b[2..4] == PutWord(|o.data|);
  }

  lemma {:induction false} OptionsRead(os: seq<EdnsOption>)
    requires OptionsFit(os)
    ensures UnpackOptions(PackOptions(os)) == Some(os)
  {
    if os != [] {
      OptionReads(os[0], PackOptions(os[1..]));
      OptionsRead(os[1..]);
      assert [os[0]] + os[1..] == os;
    }
  }

  // Questions

  lemma PackQuestionOk(buf: seq<byte>, dict: Dict, q: Question)
    requires DictOk(buf, dict)
    ensures
      var (b, d) := PackQuestion(buf, dict, q);
      buf < b && DictOk(b, d)
  {
    PackNameOk(buf, dict, q.name);
    var (b, d) := PackName(buf, dict, q.name);
    DictExtends(b, d, PackQuestion(buf, dict, q).0);
  }

  /** The question at the end of a buffer can be read, whatever follows it. */
  lemma QuestionReads(buf: seq<byte>, dict: Dict, q: Question, msg: seq<byte>)
    requires DictOk(buf, dict) && PackQuestion(buf, dict, q).0 <= msg
    ensures UnpackQuestion(msg, |buf|) == Some((q, |PackQuestion(buf, dict, q).0|))
  {
    var (b0, _) := PackName(buf, dict, q.name);
    var b := PackQuestion(buf, dict, q).0;
    PackNameOk(buf, dict, q.name);
    UnpackNameExtends(b0, |buf|, |buf|, msg);
    var part := PutWord(q.qtype) + PutWord(q.qclass);
    assert part[0..2] == PutWord(q.qtype) && part[2..4] == PutWord(q.qclass);
    assert msg[|b0|..|b|] == b[|b0|..] == part;
    FieldReads(q.qtype, part, 0, msg, |b0|);
    FieldReads(q.qclass, part, 2, msg, |b0|);
  }

  lemma {:induction false} PackQuestionsOk(buf: seq<byte>, dict: Dict, qs: seq<Question>)
    requires DictOk(buf, dict)
    ensures
      var (b, d) := PackQuestions(buf, dict, qs);
      buf <= b && DictOk(b, d)
    decreases |qs|
  {
    if qs != [] {
      PackQuestionOk(buf, dict, qs[0]);
      var (b1, d1) := PackQuestion(buf, dict, qs[0]);
      PackQuestionsOk(b1, d1, qs[1..]);
    }
  }

  lemma UnpackQuestionsStep(msg: seq<byte>, off: nat, qs: seq<Question>, next: nat, end: nat)
    requires qs != [] && UnpackQuestion(msg, off) == Some((qs[0], next))
    requires UnpackQuestions(msg, next, |qs| - 1) == Some((qs[1..], end))
    ensures UnpackQuestions(msg, off, |qs|) == Some((qs, end))
  {
    assert [qs[0]] + qs[1..] == qs;
  }

  lemma {:induction false} QuestionsRead(buf: seq<byte>, dict: Dict, qs: seq<Question>, msg: seq<byte>)
    requires DictOk(buf, dict) && PackQuestions(buf, dict, qs).0 <= msg
    ensures UnpackQuestions(msg, |buf|, |qs|) == Some((qs, |PackQuestions(buf, dict, qs).0|))
    decreases |qs|
  {
    if qs != [] {
      var (b1, d1) := PackQuestion(buf, dict, qs[0]);
      PackQuestionOk(buf, dict, qs[0]);
      PackQuestionsOk(b1, d1, qs[1..]);
      QuestionReads(buf, dict, qs[0], msg);
      QuestionsRead(b1, d1, qs[1..], msg);
      UnpackQuestionsStep(msg, |buf|, qs, |b1|, |PackQuestions(buf, dict, qs).0|);
    }
  }

  // Records

  lemma BodyReads(r: Resource)
    requires Fits(r)
    ensures UnpackBody(RType(r.body), RData(r.body)) == Some(r.body)
  {
    if r.body.Opt? {
      OptionsRead(r.body.options);
    }
  }

  /** Five two-byte fields, and the rest. */
  lemma FieldSlices(a: seq<byte>, b: seq<byte>, c: seq<byte>, d: seq<byte>, e: seq<byte>, x: seq<byte>)
    requires |a| == |b| == |c| == |d| == |e| == 2
    ensures
      var s := a + b + c + d + e + x;
      && |s| == 10 + |x|
      && s[0..2] == a && s[2..4] == b && s[4..6] == c && s[6..8] == d && s[8..10] == e && s[10..] == x
  {
  }

  /** The field at `k` of a part of the message that starts at `p`. */
  lemma FieldReads(v: Word, part: seq<byte>, k: nat, msg: seq<byte>, p: nat)
    requires k + 2 <= |part| && part[k..k + 2] == PutWord(v)
    requires p + |part| <= |msg| && msg[p..p + |part|] == part
    ensures WordAt(msg, p + k) == v
  {
    SliceOfSlice(msg, p, |part|, k, k + 2);
    WordReads(v, msg, p + k);
  }

  lemma SliceOfSlice(s: seq<byte>, p: nat, n: nat, lo: nat, hi: nat)
    requires p + n <= |s| && lo <= hi <= n
    ensures s[p..p + n][lo..hi] == s[p + lo..p + hi]
  {
    var part := s[p..p + n];
    var a, b := part[lo..hi], s[p + lo..p + hi];
    forall i | 0 <= i < |a|
      ensures a[i] == b[i]
    {
      assert a[i] == part[lo + i];
    }
    assert a == b;
  }

  /** Five fields and then data, at `p`. */
  lemma FieldsRead(kind: Word, rclass: Word, high: Word, low: Word, size: Word, data: seq<byte>,
                   msg: seq<byte>, p: nat)
    requires p + 10 + |data| <= |msg|
    requires msg[p..p + 10 + |data|] ==
             PutWord(kind) + PutWord(rclass) + PutWord(high) + PutWord(low) + PutWord(size) + data
    ensures WordAt(msg, p) == kind && WordAt(msg, p + 2) == rclass
    ensures WordAt(msg, p + 4) == high && WordAt(msg, p + 6) == low && WordAt(msg, p + 8) == size
    ensures msg[p + 10..p + 10 + |data|] == data
  {
    var rest := msg[p..p + 10 + |data|];
    FieldSlices(PutWord(kind), PutWord(rclass), PutWord(high), PutWord(low), PutWord(size), data);
    FieldReads(kind, rest, 0, msg, p);
    FieldReads(rclass, rest, 2, msg, p);
    FieldReads(high, rest, 4, msg, p);
    FieldReads(low, rest, 6, msg, p);
    FieldReads(size, rest, 8, msg, p);
    SliceOfSlice(msg, p, |rest|, 10, |rest|);
  }

  /** The fields of a record whose owner name ends at `p`. */
  lemma RestReads(r: Resource, msg: seq<byte>, p: nat)
    requires Fits(r) && p + |PackRest(r)| <= |msg| && msg[p..p + |PackRest(r)|] == PackRest(r)
    ensures
      var size := |RData(r.body)|;
      && p + 10 + size <= |msg|
      && WordAt(msg, p) == RType(r.body) && WordAt(msg, p + 2) == r.rclass
      && WordAt(msg, p + 4) == r.ttlHigh && WordAt(msg, p + 6) == r.ttlLow
      && WordAt(msg, p + 8) == size
      && msg[p + 10..p + 10 + size] == RData(r.body)
  {
    var data := RData(r.body);
    assert |PackRest(r)| == 10 + |data|;
    assert p + (10 + |data|) == p + 10 + |data|;
    FieldsRead(RType(r.body), r.rclass, r.ttlHigh, r.ttlLow, |data|, data, msg, p);
  }

  lemma PackResourceOk(buf: seq<byte>, dict: Dict, r: Resource)
    requires DictOk(buf, dict) && Fits(r)
    ensures
      var (b, d) := PackResource(buf, dict, r);
      buf < b && DictOk(b, d)
  {
    var (b0, d) := PackName(buf, dict, r.name);
    PackNameOk(buf, dict, r.name);
    DictExtends(b0, d, PackResource(buf, dict, r).0);
  }

  /** The record at the end of a buffer can be read, whatever follows it. */
  lemma ResourceReads(buf: seq<byte>, dict: Dict, r: Resource, msg: seq<byte>)
    requires DictOk(buf, dict) && Fits(r) && PackResource(buf, dict, r).0 <= msg
    ensures UnpackResource(msg, |buf|) == Some((r, |PackResource(buf, dict, r).0|))
  {
    var (b0, d) := PackName(buf, dict, r.name);
    var b := PackResource(buf, dict, r).0;
    PackNameOk(buf, dict, r.name);
    UnpackNameExtends(b0, |buf|, |buf|, msg);
    assert msg[|b0|..|b|] == b[|b0|..] == PackRest(r);
    NamedRestReads(r, msg, |buf|, |b0|);
  }

  /** A record whose owner name has been read. */
  lemma NamedRestReads(r: Resource, msg: seq<byte>, off: nat, p: nat)
    requires Fits(r) && p + |PackRest(r)| <= |msg| && msg[p..p + |PackRest(r)|] == PackRest(r)
    requires UnpackName(msg, off, off) == Some((r.name, p))
    ensures UnpackResource(msg, off) == Some((r, p + |PackRest(r)|))
  {
    RestReads(r, msg, p);
    BodyReads(r);
  }

  lemma {:induction false} PackResourcesOk(buf: seq<byte>, dict: Dict, rs: seq<Resource>)
    requires DictOk(buf, dict) && AllFit(rs)
    ensures
      var (b, d) := PackResources(buf, dict, rs);
      buf <= b && DictOk(b, d)
    decreases |rs|
  {
    if rs != [] {
      PackResourceOk(buf, dict, rs[0]);
      var (b1, d1) := PackResource(buf, dict, rs[0]);
      PackResourcesOk(b1, d1, rs[1..]);
    }
  }

  lemma UnpackResourcesStep(msg: seq<byte>, off: nat, rs: seq<Resource>, next: nat, end: nat)
    requires rs != [] && UnpackResource(msg, off) == Some((rs[0], next))
    requires UnpackResources(msg, next, |rs| - 1) == Some((rs[1..], end))
    ensures UnpackResources(msg, off, |rs|) == Some((rs, end))
  {
    assert [rs[0]] + rs[1..] == rs;
  }

  lemma {:induction false} ResourcesRead(buf: seq<byte>, dict: Dict, rs: seq<Resource>, msg: seq<byte>)
    requires DictOk(buf, dict) && AllFit(rs) && PackResources(buf, dict, rs).0 <= msg
    ensures UnpackResources(msg, |buf|, |rs|) == Some((rs, |PackResources(buf, dict, rs).0|))
    decreases |rs|
  {
    if rs != [] {
      var (b1, d1) := PackResource(buf, dict, rs[0]);
      PackResourceOk(buf, dict, rs[0]);
      PackResourcesOk(b1, d1, rs[1..]);
      ResourceReads(buf, dict, rs[0], msg);
      ResourcesRead(b1, d1, rs[1..], msg);
      UnpackResourcesStep(msg, |buf|, rs, |b1|, |PackResources(buf, dict, rs).0|);
    }
  }

  // Messages

  lemma HeaderReads(m: Message, msg: seq<byte>)
    requires Packable(m) && PackHeader(m) <= msg
    ensures WordAt(msg, 0) == m.id && FlagsOf(msg[2], msg[3]) == m.flags
    ensures WordAt(msg, 4) == |m.questions| && WordAt(msg, 6) == |m.answers|
    ensures WordAt(msg, 8) == |m.authorities| && WordAt(msg, 10) == |m.additionals|
  {
    FlagsRead(m.flags);
    var h := PackHeader(m);
    assert h[2] == PutFlags(m.flags)[0] && h[3] == PutFlags(m.flags)[1];
  }

  lemma SectionsSplit(m: Message)
    ensures
      var rs, an, ns := Records(m), |m.answers|, |m.authorities|;
      rs[..an] == m.answers && rs[an..an + ns] == m.authorities && rs[an + ns..] == m.additionals
  {
  }

  /** The parts of a message, read one after the other. */
  lemma UnpackParts(msg: seq<byte>, m: Message, mid: nat, end: nat)
    requires Packable(m) && PackHeader(m) <= msg
    requires UnpackQuestions(msg, 12, |m.questions|) == Some((m.questions, mid))
    requires UnpackResources(msg, mid, |Records(m)|) == Some((Records(m), end))
    ensures Unpack(msg) == Some(m)
  {
    HeaderReads(m, msg);
    SectionsSplit(m);
  }

  /** Unpacking inverts packing, name compression included, whatever bytes follow the message. */
  lemma RoundTrip(m: Message, msg: seq<byte>)
    requires Packable(m) && PackAll(m) <= msg
    ensures Unpack(msg) == Some(m)
  {
    var (b, d) := PackFront(m);
    PackQuestionsOk(PackHeader(m), map[], m.questions);
    PackResourcesOk(b, d, Records(m));
    QuestionsRead(PackHeader(m), map[], m.questions, msg);
    ResourcesRead(b, d, Records(m), msg);
    UnpackParts(msg, m, |b|, |PackAll(m)|);
  }

  // Messages that were read can be written

  lemma {:induction false} OptionsWrite(rdata: seq<byte>)
    requires UnpackOptions(rdata).Some?
    ensures PackOptions(UnpackOptions(rdata).value) == rdata
    decreases |rdata|
  {
    if rdata != [] {
      var size: int := WordAt(rdata, 2);
      OptionsWrite(rdata[4 + size..]);
      WordWrites(rdata, 0);
      WordWrites(rdata, 2);
      FourParts(rdata, 4 + size);
      PackOptionsCons(EdnsOption(WordAt(rdata, 0), rdata[4..4 + size]), UnpackOptions(rdata[4 + size..]).value);
    }
  }

  lemma FourParts(s: seq<byte>, k: nat)
    requires 4 <= k <= |s|
    ensures s[0..2] + s[2..4] + s[4..k] + s[k..] == s
  {
  }

  lemma PackOptionsCons(o: EdnsOption, os: seq<EdnsOption>)
    requires OptionsFit(os) && |o.data| < U16
    ensures OptionsFit([o] + os)
    ensures PackOptions([o] + os) == PutWord(o.code) + PutWord(|o.data|) + o.data + PackOptions(os)
  {
    assert ([o] + os)[1..] == os;
  }

  lemma WordWrites(msg: seq<byte>, off: nat)
    requires off + 2 <= |msg|
    ensures PutWord(WordAt(msg, off)) == msg[off..off + 2]
  {
    var high: int, low: int := msg[off], msg[off + 1];
    assert (high * 256 + low) / 256 == high && (high * 256 + low) % 256 == low;
  }

  lemma UnpackedResourceFits(msg: seq<byte>, off: nat)
    requires UnpackResource(msg, off).Some?
    ensures Fits(UnpackResource(msg, off).value.0)
  {
    var p := UnpackName(msg, off, off).value.1;
    var rdata := msg[p + 10..p + 10 + WordAt(msg, p + 8)];
    if WordAt(msg, p) == OPT_TYPE {
      OptionsWrite(rdata);
    }
  }

  lemma FitsCons(r: Resource, rs: seq<Resource>)
    requires Fits(r) && AllFit(rs)
    ensures AllFit([r] + rs)
  {
  }

  lemma UnpackResourcesSplits(msg: seq<byte>, off: nat, count: nat)
    returns (r: Resource, next: nat, rs: seq<Resource>)
    requires count > 0 && UnpackResources(msg, off, count).Some?
    ensures UnpackResource(msg, off) == Some((r, next))
    ensures UnpackResources(msg, next, count - 1).Some? && UnpackResources(msg, next, count - 1).value.0 == rs
    ensures UnpackResources(msg, off, count).value.0 == [r] + rs
  {
    var first := UnpackResource(msg, off).value;
    r, next, rs := first.0, first.1, UnpackResources(msg, first.1, count - 1).value.0;
  }

  lemma {:induction false} UnpackedResourcesFit(msg: seq<byte>, off: nat, count: nat)
    requires UnpackResources(msg, off, count).Some?
    ensures AllFit(UnpackResources(msg, off, count).value.0)
    decreases count
  {
    if count > 0 {
      var r, next, rs := UnpackResourcesSplits(msg, off, count);
      UnpackedResourceFits(msg, off);
      UnpackedResourcesFit(msg, next, count - 1);
      FitsCons(r, rs);
    }
  }

  lemma SectionsJoin(rs: seq<Resource>, an: nat, ns: nat)
    requires an + ns <= |rs|
    ensures rs[..an] + rs[an..an + ns] + rs[an + ns..] == rs
  {
  }

  lemma UnpackedSections(msg: seq<byte>)
    requires Unpack(msg).Some?
    ensures
      var m := Unpack(msg).value;
      var off := UnpackQuestions(msg, 12, WordAt(msg, 4)).value.1;
      var rs := UnpackResources(msg, off, WordAt(msg, 6) as int + WordAt(msg, 8) + WordAt(msg, 10));
      && |m.questions| < U16 && |m.answers| < U16 && |m.authorities| < U16 && |m.additionals| < U16
      && rs.Some? && Records(m) == rs.value.0
  {
    var an: int, ns: int, ar: int := WordAt(msg, 6), WordAt(msg, 8), WordAt(msg, 10);
    var off := UnpackQuestions(msg, 12, WordAt(msg, 4)).value.1;
    SectionsJoin(UnpackResources(msg, off, an + ns + ar).value.0, an, ns);
  }

  /** Any message that was read can be packed again. */
  lemma UnpackedIsPackable(msg: seq<byte>)
    requires Unpack(msg).Some?
    ensures Packable(Unpack(msg).value)
  {
    UnpackedSections(msg);
    var off := UnpackQuestions(msg, 12, WordAt(msg, 4)).value.1;
    UnpackedResourcesFit(msg, off, WordAt(msg, 6) as int + WordAt(msg, 8) + WordAt(msg, 10));
  }
}
