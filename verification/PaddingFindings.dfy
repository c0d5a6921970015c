/** A long message that AddEdnsPadding pads to a size that is not a multiple of 128: an owner name
    after the OPT record slips out of the reach of compression pointers (section 4.1.4 of RFC 1035),
    and the record that referred to it grows.  PaddingSize says exactly when this happens. */
module PaddingFindings {
  import opened Common
  import opened DnsMessage
  import opened DnsRoundTrip
  import opened Padding

  const NAME: Name := [[97]]

  function Filler(): Resource {
    Resource([], 1, 0, 0, Opaque(16, seq(16349, _ => 0)))
  }

  function Short(): Resource {
    Resource(NAME, 1, 0, 0, Opaque(16, []))
  }

  function TailOf(): seq<Resource> {
    [Filler(), Short(), Short()]
  }

  /** A message whose additional records are `opt`, 16 KB of text, and two records of one name. */
  function With(opt: Resource): Message {
    Message(0, Flags(false, 0, false, false, true, false, 0), [], [], [], [opt] + TailOf())
  }

  /** A record named NAME takes one byte less when a pointer can stand for the name. */
  lemma ShortSize(buf: seq<byte>, dict: Dict)
    requires [] !in dict
    ensures
      var (b, d) := PackResource(buf, dict, Short());
      && |b| == |buf| + (if NAME in dict then 12 else 13)
      && [] !in d && (NAME in d <==> NAME in dict || |buf| < POINTER_LIMIT)
  {
    assert NAME[1..] == [];
  }

  lemma TailSizeAt(buf: seq<byte>)
    ensures AllFit(TailOf())
    ensures |PackResources(buf, map[], TailOf()).0| ==
            |buf| + 16360 + 13 + (if |buf| + 16360 < POINTER_LIMIT then 12 else 13)
  {
    var (b1, d1) := PackResource(buf, map[], Filler());
    assert d1 == map[] && |b1| == |buf| + 16360;
    ShortSize(b1, d1);
    var (b2, d2) := PackResource(b1, d1, Short());
    ShortSize(b2, d2);
    var (b3, d3) := PackResource(b2, d2, Short());
    assert TailOf()[1..] == [Short(), Short()] && [Short(), Short()][1..] == [Short()] && [Short()][1..] == [];
    assert PackResources(b3, d3, []) == (b3, d3);
    assert PackResources(b2, d2, [Short()]) == (b3, d3);
    assert PackResources(b1, d1, [Short(), Short()]) == (b3, d3);
  }

  lemma SizeWith(opt: Resource)
    requires opt.name == [] && opt.body.Opt? && Fits(opt) && |RData(opt.body)| < 1000
    ensures Packable(With(opt))
    ensures
      var start := 23 + |RData(opt.body)| + 16360;
      |PackAll(With(opt))| == start + 13 + (if start < POINTER_LIMIT then 12 else 13)
  {
    var m := With(opt);
    assert Records(m) == [opt] + TailOf() && ([opt] + TailOf())[1..] == TailOf();
    var (b, d) := PackResource(PackHeader(m), map[], opt);
    assert d == map[] && |b| == 23 + |RData(opt.body)|;
    TailSizeAt(b);
  }

  lemma FirstIsTheOpt(opt: Resource)
    requires opt.body.Opt?
    ensures IsLastOpt(With(opt).additionals, 0) && LastOpt(With(opt).additionals) == Some(0)
  {
    assert With(opt).additionals == [opt, Filler(), Short(), Short()];
  }

  lemma OnlyPaddingSize(pad: EdnsOption)
    requires |pad.data| < U16
    ensures |PackOptions([pad])| == 4 + |pad.data|
  {
    assert [pad][1..] == [];
  }

  /** AddEdnsPadding on a packed message whose last OPT record has no padding. */
  lemma PaddingOfPacked(w: Message, i: nat)
    requires Packable(w) && IsLastOpt(w.additionals, i) && LastOpt(w.additionals) == Some(i)
    requires !HasPadding(w.additionals[i].body.options)
    ensures Unpack(PackAll(w)) == Some(w)
    ensures AddEdnsPadding(PackAll(w)) == Pack(AddOptionAt(w, i, GetPadding(|PackAll(w)|)))
  {
    RoundTrip(w, PackAll(w));
  }

  function PaddedOpt(): Resource {
    AddOption(FRESH_OPT, GetPadding(16408))
  }

  lemma OptSize()
    ensures Fits(PaddedOpt()) && |RData(PaddedOpt().body)| == 104
  {
    OnlyPaddingSize(GetPadding(16408));
    assert [] + [GetPadding(16408)] == [GetPadding(16408)];
  }

  lemma OptionIntoFirst(pad: EdnsOption)
    ensures IsLastOpt(With(FRESH_OPT).additionals, 0)
    ensures AddOptionAt(With(FRESH_OPT), 0, pad) == With(AddOption(FRESH_OPT, pad))
  {
    FirstIsTheOpt(FRESH_OPT);
    assert With(FRESH_OPT).additionals[0 := AddOption(FRESH_OPT, pad)] == [AddOption(FRESH_OPT, pad)] + TailOf();
  }

  /** 16408 bytes are padded to 16513. */
  lemma LongMessageMissesTheBlock()
    ensures Packable(With(FRESH_OPT)) && |PackAll(With(FRESH_OPT))| == 16408
    ensures
      var out := AddEdnsPadding(PackAll(With(FRESH_OPT)));
      out.Some? && |out.value| == 16513 && |out.value| % PADDING_BLOCK_SIZE == 1
  {
    SizeWith(FRESH_OPT);
    FirstIsTheOpt(FRESH_OPT);
    PaddingOfPacked(With(FRESH_OPT), 0);
    OptionIntoFirst(GetPadding(16408));
    OptSize();
    SizeWith(PaddedOpt());
  }
}
