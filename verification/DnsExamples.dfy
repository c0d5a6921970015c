/** The codec against bytes written out by hand, from section 4.1 of RFC 1035 and section 6.1.2 of RFC 6891:
    a codec could lose nothing and still be another format. */
module DnsExamples {
  import opened Common
  import opened DnsMessage
  import opened DnsRoundTrip

  const NO_FLAGS := Flags(false, 0, false, false, false, false, 0)

  /** Where each flag is in the header; DnsRoundTrip.FlagsRead says that they are written there, too. */
  lemma FlagPositions(op: Nibble, code: Nibble)
    ensures FlagsOf(0, 0) == NO_FLAGS
    ensures FlagsOf(0x80, 0) == NO_FLAGS.(response := true)
    ensures FlagsOf(8 * op, 0) == NO_FLAGS.(opCode := op)
    ensures FlagsOf(4, 0) == NO_FLAGS.(authoritative := true)
    ensures FlagsOf(2, 0) == NO_FLAGS.(truncated := true)
    ensures FlagsOf(1, 0) == NO_FLAGS.(recursionDesired := true)
    ensures FlagsOf(0, 0x80) == NO_FLAGS.(recursionAvailable := true)
    ensures FlagsOf(0, code) == NO_FLAGS.(rCode := code)
  {
  }

  const A_NAME: Name := [[97]]

  /** A question for the TXT records of "a". */
  const QUESTION := Question(A_NAME, 16, 1)

  /** A TXT record of "a", with two bytes of data. */
  const TXT_RECORD := Resource(A_NAME, 1, 3, 4, Opaque(16, [5, 6]))

  /** An OPT record with one option. */
  const OPT_RECORD := Resource([], 512, 0, 0x8000, Opt([EdnsOption(10, [7])]))

  const EXAMPLE :=
    Message(0x1234, NO_FLAGS.(response := true, recursionDesired := true, rCode := 3), [QUESTION], [TXT_RECORD], [],
            [OPT_RECORD])

  const HEADER_BYTES: seq<byte> := [0x12, 0x34, 0x81, 3, 0, 1, 0, 1, 0, 0, 0, 1]
  const QUESTION_BYTES: seq<byte> := [1, 97, 0, 0, 16, 0, 1]
  const TXT_BYTES: seq<byte> := [0xC0, 12, 0, 16, 0, 1, 0, 3, 0, 4, 0, 2, 5, 6]
  const OPT_BYTES: seq<byte> := [0, 0, 41, 2, 0, 0, 0, 0x80, 0, 0, 5, 0, 10, 0, 1, 7]

  lemma QuestionOfExample()
    ensures PackQuestions(HEADER_BYTES, map[], [QUESTION]) == (HEADER_BYTES + QUESTION_BYTES, map[A_NAME := 12])
  {
    assert A_NAME[1..] == [] && [QUESTION][1..] == [];
    assert PutLabel([97]) == [1, 97];
    var d := Entered(HEADER_BYTES, map[], A_NAME);
    assert PackName(HEADER_BYTES + [1, 97], d, []) == (HEADER_BYTES + [1, 97] + [0], d);
    assert PackName(HEADER_BYTES, map[], A_NAME) == (HEADER_BYTES + [1, 97] + [0], d);
    var b := HEADER_BYTES + [1, 97] + [0] + PutWord(16) + PutWord(1);
    assert b == HEADER_BYTES + QUESTION_BYTES;
    assert PackQuestions(b, d, []) == (b, d);
  }

  lemma TxtOfExample()
    ensures Fits(TXT_RECORD)
    ensures PackResource(HEADER_BYTES + QUESTION_BYTES, map[A_NAME := 12], TXT_RECORD) ==
            (HEADER_BYTES + QUESTION_BYTES + TXT_BYTES, map[A_NAME := 12])
  {
    var buf, rest := HEADER_BYTES + QUESTION_BYTES, PackRest(TXT_RECORD);
    assert PutPointer(12) == [0xC0, 12];
    assert PackName(buf, map[A_NAME := 12], A_NAME) == (buf + [0xC0, 12], map[A_NAME := 12]);
    assert [0xC0, 12] + rest == TXT_BYTES;
    assert buf + [0xC0, 12] + rest == buf + ([0xC0, 12] + rest);
  }

  lemma OptOfExample(buf: seq<byte>, dict: Dict)
    ensures Fits(OPT_RECORD)
    ensures PackResource(buf, dict, OPT_RECORD) == (buf + OPT_BYTES, dict)
  {
    assert [EdnsOption(10, [7])][1..] == [];
    assert PackOptions([EdnsOption(10, [7])]) == [0, 10, 0, 1, 7];
    assert PackName(buf, dict, []) == (buf + [0], dict);
    assert [0] + PackRest(OPT_RECORD) == OPT_BYTES;
    assert buf + [0] + PackRest(OPT_RECORD) == buf + ([0] + PackRest(OPT_RECORD));
  }

  /** The message on the wire, with the second "a" as a pointer to the first. */
  lemma ExampleOnTheWire()
    ensures Packable(EXAMPLE)
    ensures PackAll(EXAMPLE) == HEADER_BYTES + QUESTION_BYTES + TXT_BYTES + OPT_BYTES
    ensures Unpack(HEADER_BYTES + QUESTION_BYTES + TXT_BYTES + OPT_BYTES) == Some(EXAMPLE)
  {
    var front, dict := HEADER_BYTES + QUESTION_BYTES, map[A_NAME := 12];
    TxtOfExample();
    OptOfExample(front + TXT_BYTES, dict);
    QuestionOfExample();
    assert Records(EXAMPLE) == [TXT_RECORD, OPT_RECORD];
    assert PackHeader(EXAMPLE) == HEADER_BYTES;
    ResourcesOfExample(front, dict);
    RoundTrip(EXAMPLE, PackAll(EXAMPLE));
  }

  lemma ResourcesOfExample(buf: seq<byte>, dict: Dict)
    requires Fits(TXT_RECORD) && Fits(OPT_RECORD)
    requires PackResource(buf, dict, TXT_RECORD) == (buf + TXT_BYTES, dict)
    requires PackResource(buf + TXT_BYTES, dict, OPT_RECORD) == (buf + TXT_BYTES + OPT_BYTES, dict)
    ensures AllFit([TXT_RECORD, OPT_RECORD])
    ensures PackResources(buf, dict, [TXT_RECORD, OPT_RECORD]).0 == buf + TXT_BYTES + OPT_BYTES
  {
    assert [TXT_RECORD, OPT_RECORD][1..] == [OPT_RECORD] && [OPT_RECORD][1..] == [];
    var end := buf + TXT_BYTES + OPT_BYTES;
    assert PackResources(end, dict, []) == (end, dict);
    assert PackResources(buf + TXT_BYTES, dict, [OPT_RECORD]) == (end, dict);
  }
}
