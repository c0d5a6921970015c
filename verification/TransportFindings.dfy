/** Queries that doQuery does not treat as its callers might expect.  TransportTheorems says exactly when, or
    what is enough for them not to occur. */
module TransportFindings {
  import opened Common
  import opened DnsId
  import opened DnsMessage
  import opened DnsRoundTrip
  import opened Padding
  import opened DohTransport
  import opened TransportTheorems

  // A query that was padded already, and that no request can be built from

  const EMPTY_PADDING := EdnsOption(OPT_RESOURCE_PADDING_CODE, [])
  const PADDED_OPT := Resource([], 65535, 0, 0, Opt([EMPTY_PADDING]))
  const PADDED_QUERY := Message(1, Flags(false, 0, false, false, true, false, 0), [], [], [], [PADDED_OPT])

  lemma PaddedQueryIsFine()
    ensures Packable(PADDED_QUERY) && AlreadyPadded(PADDED_QUERY)
  {
    assert PackOptions([EMPTY_PADDING]) == PutWord(12) + PutWord(0) + [] + PackOptions([]) by {
      assert [EMPTY_PADDING][1..] == [];
    }
    assert PADDED_OPT.body.options[0] == EMPTY_PADDING;
    assert HasPadding(PADDED_OPT.body.options);
    assert LastOpt(PADDED_QUERY.additionals) == Some(0);
  }

  lemma BytesOf(m: Message) returns (raw: seq<byte>)
    requires Packable(m)
    ensures Unpack(raw) == Some(m)
  {
    raw := PackAll(m);
    RoundTrip(m, raw);
  }

  lemma PaddedQueryComesBack(raw: seq<byte>)
    requires Unpack(raw) == Some(PADDED_QUERY)
    ensures AddEdnsPadding(raw) == Some(raw) && AlreadyPadded(Unpack(raw).value)
    ensures |raw| >= 2 && raw[..2] != [0, 0]
  {
    PaddedQueryIsFine();
    WordWrites(raw, 0);
    assert PutWord(1) == [0, 1];
  }

  /** The caller's query loses its ID when no request can be built. */
  lemma LostId(w: World) returns (raw: seq<byte>)
    requires w.requestFails && w.checkTime >= 0
    ensures Unpack(raw) == Some(PADDED_QUERY)
    ensures Ask(raw, 0, w).query != raw
  {
    PaddedQueryIsFine();
    raw := BytesOf(PADDED_QUERY);
    PaddedQueryComesBack(raw);
    CallerSliceIsRestored(raw, 0, w);
  }

  // A query whose question is named by the bytes of its ID

  /** The ID reads as the label "a", and the third byte ends the name. */
  const SELF_NAMED: seq<byte> :=
    [1, 97, 0, 0, 0, 1, 0, 0, 0, 0, 0, 1] + [192, 0, 0, 1, 0, 1] + [0, 0, 41, 0, 0, 0, 0, 0, 0, 0, 4, 0, 12, 0, 0]

  /** SELF_NAMED, or SELF_NAMED with the ID 0. */
  predicate HasItsForm(msg: seq<byte>) {
    |msg| == 33 && msg[2..] == SELF_NAMED[2..] && ((msg[0] == 1 && msg[1] == 97) || msg[0] == 0)
  }

  function NameIn(msg: seq<byte>): Name
    requires HasItsForm(msg)
  {
    if msg[0] == 0 then [] else [[97]]
  }

  lemma QuestionName(msg: seq<byte>)
    requires HasItsForm(msg)
    ensures UnpackName(msg, 12, 12) == Some((NameIn(msg), 14))
  {
    assert msg[2] == SELF_NAMED[2..][0] && msg[12] == SELF_NAMED[2..][10] && msg[13] == SELF_NAMED[2..][11];
    assert PointerAt(msg, 12) == 0;
    if msg[0] == 1 {
      var l: Label := msg[1..2];
      assert l == [97];
      assert UnpackName(msg, 2, 0) == Some(([], 3));
      assert UnpackName(msg, 0, 0) == Some(([l] + [], 3));
      assert [l] + [] == [[97]];
    } else {
      assert UnpackName(msg, 0, 0) == Some(([], 1));
    }
  }

  lemma LikeSelfNamed(msg: seq<byte>, i: nat)
    requires HasItsForm(msg) && 2 <= i < 33
    ensures msg[i] == SELF_NAMED[i]
  {
    assert msg[i] == msg[2..][i - 2] && SELF_NAMED[i] == SELF_NAMED[2..][i - 2];
  }

  lemma WordIn(msg: seq<byte>, off: nat)
    requires HasItsForm(msg) && 2 <= off <= 31
    ensures WordAt(msg, off) == WordAt(SELF_NAMED, off)
  {
    LikeSelfNamed(msg, off);
    LikeSelfNamed(msg, off + 1);
  }

  lemma QuestionIn(msg: seq<byte>)
    requires HasItsForm(msg)
    ensures UnpackQuestions(msg, 12, 1) == Some(([Question(NameIn(msg), 1, 1)], 18))
  {
    QuestionName(msg);
    WordIn(msg, 14);
    WordIn(msg, 16);
    assert UnpackQuestions(msg, 18, 0) == Some(([], 18));
    assert [Question(NameIn(msg), 1, 1)] + [] == [Question(NameIn(msg), 1, 1)];
  }

  lemma OptionIn()
    ensures UnpackOptions([0, 12, 0, 0]) == Some([EMPTY_PADDING])
  {
    var rdata: seq<byte> := [0, 12, 0, 0];
    assert rdata[4..] == [] && rdata[4..4] == [];
    assert [EMPTY_PADDING] + [] == [EMPTY_PADDING];
  }

  lemma RecordIn(msg: seq<byte>)
    requires HasItsForm(msg)
    ensures UnpackResource(msg, 18) == Some((Resource([], 0, 0, 0, Opt([EMPTY_PADDING])), 33))
  {
    LikeSelfNamed(msg, 18);
    assert UnpackName(msg, 18, 18) == Some(([], 19));
    WordIn(msg, 19);
    WordIn(msg, 21);
    WordIn(msg, 23);
    WordIn(msg, 25);
    WordIn(msg, 27);
    forall i | 29 <= i < 33
      ensures msg[i] == SELF_NAMED[i]
    {
      LikeSelfNamed(msg, i);
    }
    assert msg[29..33] == [0, 12, 0, 0];
    OptionIn();
  }

  lemma RecordsIn(msg: seq<byte>)
    requires HasItsForm(msg)
    ensures UnpackResources(msg, 18, 1) == Some(([Resource([], 0, 0, 0, Opt([EMPTY_PADDING]))], 33))
  {
    RecordIn(msg);
    assert UnpackResources(msg, 33, 0) == Some(([], 33));
    var r := Resource([], 0, 0, 0, Opt([EMPTY_PADDING]));
    assert [r] + [] == [r];
  }

  lemma MessageIn(msg: seq<byte>)
    requires HasItsForm(msg)
    ensures Unpack(msg).Some? && Unpack(msg).value.questions == [Question(NameIn(msg), 1, 1)]
    ensures AlreadyPadded(Unpack(msg).value)
  {
    WordIn(msg, 4);
    WordIn(msg, 6);
    WordIn(msg, 8);
    WordIn(msg, 10);
    QuestionIn(msg);
    RecordsIn(msg);
    var rs := [Resource([], 0, 0, 0, Opt([EMPTY_PADDING]))];
    UnpackAssembles(msg, [Question(NameIn(msg), 1, 1)], 18, rs, 33);
    assert Unpack(msg).value.additionals == rs;
    assert rs[0].body.options[0] == EMPTY_PADDING;
    assert LastOpt(rs) == Some(0);
  }

  lemma NameBehindPointer()
    ensures UnpackName(SELF_NAMED, 0, 0).Some? && UnpackName(SELF_NAMED, 0, 0).value.0 != []
  {
    var l: Label := SELF_NAMED[1..2];
    assert UnpackName(SELF_NAMED, 2, 0) == Some(([], 3));
    assert UnpackName(SELF_NAMED, 0, 0) == Some(([l] + [], 3));
  }

  lemma NameDependsOnId()
    ensures !IgnoresId(SELF_NAMED)
  {
    NameBehindPointer();
    assert PointerAt(SELF_NAMED, 12) == 0;
    assert !NameIgnoresId(SELF_NAMED, 12, 12);
    assert WordAt(SELF_NAMED, 4) == 1;
  }

  /** The query is padded already, so that it is sent as it is, with the ID 0: and that changes the question. */
  lemma ZeroIdChangesQuestion()
    ensures Unpack(SELF_NAMED).Some? && Unpack(SELF_NAMED).value.questions == [Question([[97]], 1, 1)]
    ensures Unpack(ZeroId(SELF_NAMED)).Some? && Unpack(ZeroId(SELF_NAMED)).value.questions == [Question([], 1, 1)]
    ensures AlreadyPadded(Unpack(SELF_NAMED).value) && !IgnoresId(SELF_NAMED)
  {
    assert ZeroId(SELF_NAMED)[2..] == SELF_NAMED[2..];
    MessageIn(SELF_NAMED);
    MessageIn(ZeroId(SELF_NAMED));
    NameDependsOnId();
  }
}
