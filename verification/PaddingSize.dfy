/** How large a padded message is: a multiple of 128 bytes, plus what the records after the OPT grow by
    because they have moved.  Whether they grow can be read off the message before it is padded. */
module PaddingSize {
  import opened Common
  import opened DnsMessage
  import opened DnsOffsets
  import opened DnsRoundTrip
  import opened Padding
  import opened PaddingTheorems

  // Packing up to the OPT record, and from there

  lemma {:induction false} PackResourcesAppend(buf: seq<byte>, dict: Dict, xs: seq<Resource>, ys: seq<Resource>)
    requires AllFit(xs) && AllFit(ys)
    ensures AllFit(xs + ys)
    ensures
      var (b, d) := PackResources(buf, dict, xs);
      PackResources(buf, dict, xs + ys) == PackResources(b, d, ys)
    decreases |xs|
  {
    if xs == [] {
      assert xs + ys == ys;
    } else {
      assert (xs + ys)[1..] == xs[1..] + ys;
      var (b, d) := PackResource(buf, dict, xs[0]);
      PackResourcesAppend(b, d, xs[1..], ys);
    }
  }

  /** The records up to and including additional `i`, and the ones after it. */
  function Front(m: Message, i: nat): seq<Resource>
    requires i < |m.additionals|
  {
    m.answers + m.authorities + m.additionals[..i + 1]
  }

  function Tail(m: Message, i: nat): seq<Resource>
    requires i < |m.additionals|
  {
    m.additionals[i + 1..]
  }

  lemma PartsFit(m: Message, i: nat)
    requires Packable(m) && i < |m.additionals|
    ensures Records(m) == Front(m, i) + Tail(m, i) && AllFit(Front(m, i)) && AllFit(Tail(m, i))
  {
    assert Records(m) == Front(m, i) + Tail(m, i);
    forall j | 0 <= j < |Front(m, i)|
      ensures Fits(Front(m, i)[j])
    {
      assert Front(m, i)[j] == Records(m)[j];
    }
    forall j | 0 <= j < |Tail(m, i)|
      ensures Fits(Tail(m, i)[j])
    {
      assert Tail(m, i)[j] == Records(m)[|Front(m, i)| + j];
    }
  }

  /** The message as packed up to and including additional `i`. */
  function Before(m: Message, i: nat): (seq<byte>, Dict)
    requires Packable(m) && i < |m.additionals|
  {
    PartsFit(m, i);
    var (b, d) := PackFront(m);
    PackResources(b, d, Front(m, i))
  }

  lemma PackSplits(m: Message, i: nat)
    requires Packable(m) && i < |m.additionals|
    ensures
      var (b, d) := Before(m, i);
      AllFit(Tail(m, i)) && PackAll(m) == PackResources(b, d, Tail(m, i)).0
  {
    PartsFit(m, i);
    var (b, d) := PackFront(m);
    PackResourcesAppend(b, d, Front(m, i), Tail(m, i));
  }

  /** The option's own bytes are what its record grows by; the dictionary does not notice. */
  lemma BeforeGrows(m: Message, i: nat, o: EdnsOption)
    requires IsLastOpt(m.additionals, i) && Packable(m) && Packable(AddOptionAt(m, i, o)) && |o.data| < U16
    ensures
      var (b, d) := Before(m, i);
      var (b', d') := Before(AddOptionAt(m, i, o), i);
      d' == d && |b'| == |b| + OPT_PADDING_HEADER_LEN + |o.data|
  {
    var m' := AddOptionAt(m, i, o);
    var r, r' := m.additionals[i], m'.additionals[i];
    var n := |m.answers| + |m.authorities| + i;
    var pre := Front(m, i)[..n];
    PartsFit(m, i);
    PartsFit(m', i);
    assert Front(m, i) == pre + [r] && Front(m', i) == pre + [r'];
    assert Front(m, i)[n] == r && Front(m', i)[n] == r';
    var (b, d) := PackFront(m);
    PackResourcesAppend(b, d, pre, [r]);
    PackResourcesAppend(b, d, pre, [r']);
    assert [r][1..] == [] && [r'][1..] == [];
    assert PackHeader(m') == PackHeader(m);
    PackOptionsAppend(r.body.options, o);
  }

  /** What Before leaves: every dictionary entry lies before, and the suffixes of a name have entries too. */
  lemma BeforeIsSound(m: Message, i: nat)
    requires Packable(m) && i < |m.additionals|
    ensures
      var (b, d) := Before(m, i);
      Below(d, |b|) && SuffixesBut(d, |b|, [])
  {
    PartsFit(m, i);
    var (b, d) := PackFront(m);
    PackQuestionsOk(PackHeader(m), map[], m.questions);
    PackResourcesOk(b, d, Front(m, i));
    QuestionsKeepSuffixes(PackHeader(m), map[], m.questions);
    ResourcesKeepSuffixes(b, d, Front(m, i));
  }

  // The size

  /** What the padding option adds to the OPT record of `w`. */
  function OptionSize(w: Message): (k: nat)
    requires Packable(w)
    ensures (|PackAll(w)| + k) % PADDING_BLOCK_SIZE == 0
  {
    OPT_PADDING_HEADER_LEN + ComputePaddingSize(|PackAll(w)|, PADDING_BLOCK_SIZE)
  }

  function Zeros(k: nat): (b: seq<byte>)
    ensures |b| == k
  {
    seq(k, _ => 0)
  }

  /** The size of the records after additional `i`, `k` bytes further on than they are. */
  function TailSize(w: Message, i: nat, k: nat): int
    requires Packable(w) && i < |w.additionals|
  {
    PartsFit(w, i);
    var (b, d) := Before(w, i);
    |PackResources(b + Zeros(k), d, Tail(w, i)).0| - (|b| + k)
  }

  /** What the records after additional `i` grow by when they move by `k` bytes. */
  function Growth(w: Message, i: nat, k: nat): int
    requires Packable(w) && i < |w.additionals|
  {
    TailSize(w, i, k) - TailSize(w, i, 0)
  }

  /** A record after additional `i` has a name with an end that another record after it has written, at
      an offset that a compression pointer cannot hold any more when 'k' is added to it. */
  predicate TailSpills(w: Message, i: nat, k: nat)
    requires Packable(w) && i < |w.additionals|
  {
    PartsFit(w, i);
    var (b, d) := Before(w, i);
    Reuses(b, d, Tail(w, i), LateFrom(|b|, k))
  }

  /** The records after the OPT grow if and only if one of them refers to a name that slips out of
      reach; and they never shrink. */
  lemma GrowthIsSpill(w: Message, i: nat, k: nat)
    requires Packable(w) && i < |w.additionals|
    ensures Growth(w, i, k) >= 0
    ensures Growth(w, i, k) == 0 <==> !TailSpills(w, i, k)
  {
    PartsFit(w, i);
    var (b, d) := Before(w, i);
    BeforeIsSound(w, i);
    assert b + Zeros(0) == b;
    ResourcesShift(b, d, b + Zeros(k), d, |b|, k, Tail(w, i));
  }

  /** Nothing slips out of reach if no record follows the OPT, or if the message is short enough. */
  lemma ShortMessageKeepsTail(w: Message, i: nat, k: nat)
    requires Packable(w) && i < |w.additionals|
    requires i == |w.additionals| - 1 || |PackAll(w)| + k <= POINTER_LIMIT
    ensures !TailSpills(w, i, k)
  {
    PackSplits(w, i);
    if i < |w.additionals| - 1 {
      var (b, d) := Before(w, i);
      BeforeIsSound(w, i);
      PackResourcesGrow(b, d, Tail(w, i));
      ShortRecordsReuseNothing(b, d, Tail(w, i), LateFrom(|b|, k));
    }
  }

  /** The size of the message with the option: what it was, what the option adds, and the growth. */
  lemma SizeWithOption(w: Message, i: nat, o: EdnsOption)
    requires IsLastOpt(w.additionals, i) && Packable(w) && Packable(AddOptionAt(w, i, o)) && |o.data| < U16
    ensures
      var k := OPT_PADDING_HEADER_LEN + |o.data|;
      |PackAll(AddOptionAt(w, i, o))| == |PackAll(w)| + k + Growth(w, i, k)
  {
    var m' := AddOptionAt(w, i, o);
    var k := OPT_PADDING_HEADER_LEN + |o.data|;
    BeforeGrows(w, i, o);
    PackSplits(w, i);
    PackSplits(m', i);
    assert Tail(m', i) == Tail(w, i);
    var (b, d) := Before(w, i);
    assert b + Zeros(0) == b;
    PackResourcesTail(Before(m', i).0, b + Zeros(k), d, Tail(w, i));
  }

  lemma FreshOptIsLast(m: Message)
    requires NoOpt(m.additionals)
    ensures LastOpt(WithOpt(m).additionals) == Some(|WithOpt(m).additionals| - 1)
  {
    LastOptUnique(WithOpt(m).additionals, |m.additionals|);
  }

  lemma BlockRemainder(whole: int, growth: int)
    requires whole % PADDING_BLOCK_SIZE == 0
    ensures (whole + growth) % PADDING_BLOCK_SIZE == 0 <==> growth % PADDING_BLOCK_SIZE == 0
  {
  }

  /** `size` is the size of `w`, whose last OPT record is additional `i`, after padding: a whole number of
      blocks, and what the records after the OPT grow by.  They grow if and only if a name slips out of reach. */
  predicate SizeOfPadded(w: Message, i: nat, size: nat)
    requires Packable(w) && i < |w.additionals|
  {
    var k := OptionSize(w);
    && size == |PackAll(w)| + k + Growth(w, i, k)
    && (size % PADDING_BLOCK_SIZE == 0 <==> Growth(w, i, k) % PADDING_BLOCK_SIZE == 0)
    && (Growth(w, i, k) == 0 <==> !TailSpills(w, i, k))
  }

  lemma PaddedSizeAt(w: Message, i: nat)
    requires IsLastOpt(w.additionals, i) && Packable(w) && Packable(AddOptionAt(w, i, GetPadding(|PackAll(w)|)))
    ensures SizeOfPadded(w, i, |PackAll(AddOptionAt(w, i, GetPadding(|PackAll(w)|)))|)
  {
    var k := OptionSize(w);
    SizeWithOption(w, i, GetPadding(|PackAll(w)|));
    GrowthIsSpill(w, i, k);
    BlockRemainder(|PackAll(w)| + k, Growth(w, i, k));
  }

  /** The size of the padded message, said of the message before it is padded. */
  lemma PaddedSize(raw: seq<byte>)
    ensures AddEdnsPadding(raw).Some? && !AlreadyPadded(Unpack(raw).value) ==>
              var w := WithOpt(Unpack(raw).value);
              && Packable(w) && LastOpt(w.additionals).Some?
              && SizeOfPadded(w, LastOpt(w.additionals).value, |AddEdnsPadding(raw).value|)
  {
    if AddEdnsPadding(raw).Some? && !AlreadyPadded(Unpack(raw).value) {
      PaddedForm(raw);
      var w := WithOpt(Unpack(raw).value);
      PaddedSizeAt(w, LastOpt(w.additionals).value);
    }
  }

  /** The padding cannot move a name out of reach: no record follows the OPT, or the message, with the
      option, has no more bytes than a pointer can reach. */
  predicate TailIsSafe(m: Message)
    requires Packable(WithOpt(m))
  {
    var w := WithOpt(m);
    || NoOpt(m.additionals)
    || LastOpt(m.additionals) == Some(|m.additionals| - 1)
    || |PackAll(w)| + OptionSize(w) <= POINTER_LIMIT
  }

  lemma SafeTailKeepsSize(m: Message)
    requires Packable(WithOpt(m)) && TailIsSafe(m)
    ensures
      var w := WithOpt(m);
      LastOpt(w.additionals).Some? && !TailSpills(w, LastOpt(w.additionals).value, OptionSize(w))
  {
    var w := WithOpt(m);
    WithOptHasOpt(m);
    if NoOpt(m.additionals) {
      FreshOptIsLast(m);
    }
    ShortMessageKeepsTail(w, LastOpt(w.additionals).value, OptionSize(w));
  }

  lemma SafeTailFillsBlocks(m: Message, size: nat)
    requires Packable(WithOpt(m)) && TailIsSafe(m) && LastOpt(WithOpt(m).additionals).Some?
    requires SizeOfPadded(WithOpt(m), LastOpt(WithOpt(m).additionals).value, size)
    ensures size % PADDING_BLOCK_SIZE == 0
  {
    SafeTailKeepsSize(m);
  }

  /** Then the padded message fills whole blocks. */
  lemma PaddingFillsBlocks(raw: seq<byte>)
    ensures AddEdnsPadding(raw).Some? && !AlreadyPadded(Unpack(raw).value) ==>
              && Packable(WithOpt(Unpack(raw).value))
              && (TailIsSafe(Unpack(raw).value) ==> |AddEdnsPadding(raw).value| % 128 == 0)
  {
    PaddedSize(raw);
    if AddEdnsPadding(raw).Some? && !AlreadyPadded(Unpack(raw).value) {
      if TailIsSafe(Unpack(raw).value) {
        SafeTailFillsBlocks(Unpack(raw).value, |AddEdnsPadding(raw).value|);
      }
    }
  }
}
