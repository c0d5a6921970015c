// intra/doh/doh.go: Servfail and tryServfail.
module ServfailResponse {
  import opened Common
  import opened DnsMessage
  import opened DnsRoundTrip
  import opened Padding
  import opened PaddingTheorems

  const RCODE_SERVER_FAILURE: Nibble := 2

  /** The message that Servfail packs. */
  function ServfailOf(m: Message): Message {
    m.(flags := m.flags.(response := true, recursionAvailable := true, rCode := RCODE_SERVER_FAILURE),
       additionals := [])
  }

  /** None stands for an error, and for the nil response that tryServfail turns it into. */
  function Servfail(q: seq<byte>): Option<seq<byte>> {
    var u := Unpack(q);
    if u.None? then None else Pack(ServfailOf(u.value))
  }

  /** `r` answers `m` with SERVFAIL (RCODE 2): it is a response, recursion is available, every other flag and
      every section is that of the query, and there are no additional records. */
  predicate AnswersServfail(m: Message, r: Message) {
    && r.id == m.id && r.questions == m.questions && r.answers == m.answers && r.authorities == m.authorities
    && r.additionals == []
    && r.flags ==
       Flags(true, m.flags.opCode, m.flags.authoritative, m.flags.truncated, m.flags.recursionDesired, true, 2)
  }

  /** A SERVFAIL can be made for every query that parses, and it is a response to that query. */
  lemma ServfailAnswers(q: seq<byte>)
    ensures Servfail(q).Some? <==> Unpack(q).Some?
    ensures Servfail(q).Some? ==>
              && Unpack(Servfail(q).value).Some?
              && AnswersServfail(Unpack(q).value, Unpack(Servfail(q).value).value)
              && WordAt(Servfail(q).value, 0) == WordAt(q, 0)
  {
    if Unpack(q).Some? {
      var m := Unpack(q).value;
      UnpackedIsPackable(q);
      ServfailPackable(m);
      RoundTrip(ServfailOf(m), PackAll(ServfailOf(m)));
    }
  }

  lemma ServfailPackable(m: Message)
    requires Packable(m)
    ensures Packable(ServfailOf(m))
  {
    var n := |m.answers| + |m.authorities|;
    assert Records(ServfailOf(m)) == Records(m)[..n];
  }

  /** Padding is invisible to SERVFAIL: the padded query gets the same bytes as the original. */
  lemma ServfailIgnoresPadding(raw: seq<byte>)
    ensures AddEdnsPadding(raw).Some? ==> Servfail(AddEdnsPadding(raw).value) == Servfail(raw)
  {
    PaddingKeepsMeaning(raw);
    if AddEdnsPadding(raw).Some? && !AlreadyPadded(Unpack(raw).value) {
      var m := Unpack(raw).value;
      var m' := Unpack(AddEdnsPadding(raw).value).value;
      assert ServfailOf(m') == ServfailOf(m);
    }
  }

  lemma IdBytes(msg: seq<byte>)
    requires Unpack(msg).Some?
    ensures |msg| >= 12 && msg[..2] == PutWord(Unpack(msg).value.id)
  {
    WordWrites(msg, 0);
  }

  /** Padding keeps the query ID, which is in the first two bytes. */
  lemma PaddingKeepsId(raw: seq<byte>)
    ensures AddEdnsPadding(raw).Some? ==>
              |raw| >= 12 && |AddEdnsPadding(raw).value| >= 12 && AddEdnsPadding(raw).value[..2] == raw[..2]
  {
    if AddEdnsPadding(raw).Some? {
      var m, out := Unpack(raw).value, AddEdnsPadding(raw).value;
      IdBytes(raw);
      if !AlreadyPadded(m) {
        PaddingKeepsMeaning(raw);
        IdBytes(out);
        SameId(m, Unpack(out).value);
      }
    }
  }

  lemma SameId(m: Message, m': Message)
    requires OnlyPaddingAdded(m, m')
    ensures m'.id == m.id
  {
  }
}
