/** What AddEdnsPadding promises: only padding is added, padding twice is padding once, and it fails only
    for want of room. */
module PaddingTheorems {
  import opened Common
  import opened DnsMessage
  import opened DnsRoundTrip
  import opened Padding

  // Meaning

  /** A padding option: zeros, and less than a block of them. */
  predicate IsPadding(o: EdnsOption) {
    && o.code == OPT_RESOURCE_PADDING_CODE
    && |o.data| < PADDING_BLOCK_SIZE
    && forall j :: 0 <= j < |o.data| ==> o.data[j] == 0
  }

  /** `r'` is `r`, which has no padding, with a padding option at the end. */
  predicate RecordPadded(r: Resource, r': Resource) {
    && r.body.Opt? && r'.body.Opt? && !HasPadding(r.body.options)
    && var n := |r.body.options|;
       && |r'.body.options| == n + 1
       && IsPadding(r'.body.options[n])
       && r' == r.(body := Opt(r.body.options + [r'.body.options[n]]))
  }

  /** `m'` is `m` with one padding option more, in the last OPT record or in a fresh one at the end. */
  predicate OnlyPaddingAdded(m: Message, m': Message) {
    && m' == m.(additionals := m'.additionals)
    && LastOpt(m'.additionals).Some?
    && var i := LastOpt(m'.additionals).value;
       var before := WithOpt(m).additionals;
       && IsLastOpt(before, i)
       && RecordPadded(before[i], m'.additionals[i])
       && m'.additionals == before[i := m'.additionals[i]]
  }

  lemma LastOptUnique(rs: seq<Resource>, i: nat)
    requires IsLastOpt(rs, i)
    ensures LastOpt(rs) == Some(i)
  {
  }

  /** The message that gets packed, when there is no padding yet. */
  function Padded(m: Message, size: nat): Message {
    var w := WithOpt(m);
    WithOptHasOpt(m);
    AddOptionAt(w, LastOpt(w.additionals).value, GetPadding(size))
  }

  lemma OptionPads(r: Resource, size: nat)
    requires r.body.Opt? && !HasPadding(r.body.options)
    ensures RecordPadded(r, AddOption(r, GetPadding(size))) && HasPadding(AddOption(r, GetPadding(size)).body.options)
  {
    var os := AddOption(r, GetPadding(size)).body.options;
    assert os[|r.body.options|] == GetPadding(size);
  }

  lemma WithOptHasNoPadding(m: Message)
    requires !AlreadyPadded(m)
    ensures
      var w := WithOpt(m);
      LastOpt(w.additionals).Some? && !HasPadding(w.additionals[LastOpt(w.additionals).value].body.options)
  {
    if LastOpt(m.additionals).None? {
      LastOptUnique(WithOpt(m).additionals, |m.additionals|);
    }
  }

  lemma PaddedIsPadded(m: Message, size: nat)
    requires !AlreadyPadded(m)
    ensures AlreadyPadded(Padded(m, size)) && OnlyPaddingAdded(m, Padded(m, size))
  {
    WithOptHasNoPadding(m);
    var before := WithOpt(m).additionals;
    var i := LastOpt(before).value;
    OptionPads(before[i], size);
    LastOptUnique(Padded(m, size).additionals, i);
  }

  /** Padding changes nothing but padding: the padded message parses to the original one with one
      padding option more, or it is the original one because that was padded already. */
  lemma PaddingKeepsMeaning(raw: seq<byte>)
    ensures AddEdnsPadding(raw).Some? ==>
              && Unpack(raw).Some?
              && var m := Unpack(raw).value;
                 var out := AddEdnsPadding(raw).value;
                 if AlreadyPadded(m) then out == raw
                 else Unpack(out).Some? && OnlyPaddingAdded(m, Unpack(out).value)
  {
    if AddEdnsPadding(raw).Some? && !AlreadyPadded(Unpack(raw).value) {
      var m := Unpack(raw).value;
      var size := |Pack(WithOpt(m)).value|;
      PaddedIsPadded(m, size);
      RoundTrip(Padded(m, size), PackAll(Padded(m, size)));
    }
  }

  /** `o` is a padding option as section 3 of RFC 7830 has it, for blocks of 128 bytes. */
  predicate IsZeroPadding(o: EdnsOption) {
    o.code == 12 && |o.data| < 128 && forall j :: 0 <= j < |o.data| ==> o.data[j] == 0
  }

  /** The record that a message without OPT gets: a root name, a UDP size of 65535, no extended RCODE, no
      flags, and the padding. */
  predicate IsFreshPadding(r: Resource) {
    && r.name == [] && r.rclass == 65535 && r.ttlHigh == 0 && r.ttlLow == 0
    && r.body.Opt? && |r.body.options| == 1 && IsZeroPadding(r.body.options[0])
  }

  /** The option that the last OPT record gets, behind those it has. */
  predicate GainsPadding(r: Resource, r': Resource) {
    && r.body.Opt? && r'.body.Opt?
    && r'.name == r.name && r'.rclass == r.rclass && r'.ttlHigh == r.ttlHigh && r'.ttlLow == r.ttlLow
    && |r'.body.options| == |r.body.options| + 1
    && r'.body.options[..|r.body.options|] == r.body.options
    && IsZeroPadding(r'.body.options[|r.body.options|])
  }

  lemma FreshRecordIsLast(m: Message, m': Message)
    requires OnlyPaddingAdded(m, m') && NoOpt(m.additionals)
    ensures |m'.additionals| == |m.additionals| + 1 && m'.additionals[..|m.additionals|] == m.additionals
    ensures IsFreshPadding(m'.additionals[|m.additionals|])
  {
    var n := |m.additionals|;
    assert LastOpt(m.additionals).None?;
    assert WithOpt(m).additionals == m.additionals + [FRESH_OPT];
    assert LastOpt(m'.additionals).value == n;
  }

  lemma LastOptGains(m: Message, m': Message, i: nat)
    requires OnlyPaddingAdded(m, m') && IsLastOpt(m.additionals, i)
    ensures |m'.additionals| == |m.additionals| && GainsPadding(m.additionals[i], m'.additionals[i])
    ensures forall k :: 0 <= k < |m.additionals| && k != i ==> m'.additionals[k] == m.additionals[k]
  {
    LastOptUnique(m.additionals, i);
    var l := LastOpt(m'.additionals).value;
    LastOptUnique(m.additionals, l);
  }

  /** What padding adds, record by record.  A message without OPT gets one record at the end; otherwise
      the last OPT gets one option at its end, unless it has a padding option. */
  lemma WhatPaddingAdds(raw: seq<byte>)
    ensures AddEdnsPadding(raw).Some? ==>
              && Unpack(raw).Some? && Unpack(AddEdnsPadding(raw).value).Some?
              && var (m, m') := (Unpack(raw).value, Unpack(AddEdnsPadding(raw).value).value);
                 && m' == m.(additionals := m'.additionals)
                 && (NoOpt(m.additionals) ==>
                       && |m'.additionals| == |m.additionals| + 1
                       && m'.additionals[..|m.additionals|] == m.additionals
                       && IsFreshPadding(m'.additionals[|m.additionals|]))
                 && (forall i :: 0 <= i < |m.additionals| && IsLastOpt(m.additionals, i) ==>
                       var os := m.additionals[i].body.options;
                       if exists j :: 0 <= j < |os| && os[j].code == 12 then AddEdnsPadding(raw).value == raw
                       else
                         && |m'.additionals| == |m.additionals|
                         && GainsPadding(m.additionals[i], m'.additionals[i])
                         && (forall k :: 0 <= k < |m.additionals| && k != i ==> m'.additionals[k] == m.additionals[k]))
  {
    if AddEdnsPadding(raw).Some? {
      PaddingKeepsMeaning(raw);
      var (m, m') := (Unpack(raw).value, Unpack(AddEdnsPadding(raw).value).value);
      if NoOpt(m.additionals) {
        FreshRecordIsLast(m, m');
      }
      forall i | 0 <= i < |m.additionals| && IsLastOpt(m.additionals, i)
        ensures
          var os := m.additionals[i].body.options;
          if exists j :: 0 <= j < |os| && os[j].code == 12 then AddEdnsPadding(raw).value == raw
          else
            && |m'.additionals| == |m.additionals|
            && GainsPadding(m.additionals[i], m'.additionals[i])
            && (forall k :: 0 <= k < |m.additionals| && k != i ==> m'.additionals[k] == m.additionals[k])
      {
        LastOptUnique(m.additionals, i);
        if !AlreadyPadded(m) {
          LastOptGains(m, m', i);
        }
      }
    }
  }

  /** Padding twice is padding once, byte for byte. */
  lemma PaddingIsIdempotent(raw: seq<byte>)
    ensures AddEdnsPadding(raw).Some? ==> AddEdnsPadding(AddEdnsPadding(raw).value) == AddEdnsPadding(raw)
  {
    if AddEdnsPadding(raw).Some? && !AlreadyPadded(Unpack(raw).value) {
      var m := Unpack(raw).value;
      var size := |Pack(WithOpt(m)).value|;
      PaddedIsPadded(m, size);
      RoundTrip(Padded(m, size), PackAll(Padded(m, size)));
    }
  }

  /** What AddEdnsPadding packs, when there is no padding yet. */
  lemma PaddedForm(raw: seq<byte>)
    requires AddEdnsPadding(raw).Some? && !AlreadyPadded(Unpack(raw).value)
    ensures
      var w := WithOpt(Unpack(raw).value);
      && LastOpt(w.additionals).Some? && Packable(w)
      && var m' := AddOptionAt(w, LastOpt(w.additionals).value, GetPadding(|PackAll(w)|));
         Packable(m') && AddEdnsPadding(raw) == Some(PackAll(m'))
  {
    WithOptHasOpt(Unpack(raw).value);
  }

  // Errors

  lemma {:induction false} PackOptionsAppend(os: seq<EdnsOption>, o: EdnsOption)
    requires OptionsFit(os) && |o.data| < U16
    ensures |PackOptions(os + [o])| == |PackOptions(os)| + OPT_PADDING_HEADER_LEN + |o.data|
  {
    if os == [] {
      assert os + [o] == [o];
      assert PackOptions([o][1..]) == [];
    } else {
      assert (os + [o])[1..] == os[1..] + [o];
      PackOptionsAppend(os[1..], o);
    }
  }

  /** There is room for the option in the OPT record at `i`. */
  predicate RoomFor(w: Message, i: nat, pad: EdnsOption)
    requires IsLastOpt(w.additionals, i)
  {
    var os := w.additionals[i].body.options;
    OptionsFit(os) && |PackOptions(os)| + OPT_PADDING_HEADER_LEN + |pad.data| < U16
  }

  /** There is room for an OPT record, and for the option in it. */
  predicate Paddable(m: Message) {
    var w := WithOpt(m);
    WithOptHasOpt(m);
    |w.additionals| < U16 && Packable(w) && RoomFor(w, LastOpt(w.additionals).value, GetPadding(|PackAll(w)|))
  }

  /** Padding fails only on a message that does not parse, and for want of room. */
  lemma PaddingSucceeds(raw: seq<byte>)
    ensures AddEdnsPadding(raw).Some? <==>
              Unpack(raw).Some? && (AlreadyPadded(Unpack(raw).value) || Paddable(Unpack(raw).value))
  {
    if Unpack(raw).Some? && !AlreadyPadded(Unpack(raw).value) {
      var m := Unpack(raw).value;
      var w := WithOpt(m);
      WithOptHasOpt(m);
      if Packable(w) {
        AddOptionPackable(w, LastOpt(w.additionals).value, GetPadding(|PackAll(w)|));
      }
    }
  }

  /** Adding an OPT record to a message that was read fails only when all 65535 records are in use. */
  lemma RoomForRecord(raw: seq<byte>)
    requires Unpack(raw).Some?
    ensures Packable(WithOpt(Unpack(raw).value)) <==> |WithOpt(Unpack(raw).value).additionals| < U16
  {
    UnpackedIsPackable(raw);
    var m := Unpack(raw).value;
    if LastOpt(m.additionals).None? {
      assert Records(WithOpt(m)) == Records(m) + [FRESH_OPT];
    }
  }

  lemma AddOptionPackable(w: Message, i: nat, pad: EdnsOption)
    requires Packable(w) && IsLastOpt(w.additionals, i) && |pad.data| < U16
    ensures Packable(AddOptionAt(w, i, pad)) <==> RoomFor(w, i, pad)
  {
    var r := w.additionals[i];
    var m' := AddOptionAt(w, i, pad);
    var r' := m'.additionals[i];
    var n := |w.answers| + |w.authorities| + i;
    assert Records(w)[n] == r && Fits(r);
    assert Records(m') == Records(w)[n := r'];
    PackOptionsAppend(r.body.options, pad);
    assert OptionsFit(r'.body.options);
    assert Fits(r') <==> RoomFor(w, i, pad);
    assert Records(m')[n] == r';
    forall j | 0 <= j < |Records(m')| && j != n
      ensures Fits(Records(m')[j])
    {
      assert Records(m')[j] == Records(w)[j];
    }
  }
}
