/** What doQuery promises about any single query.  (DohTransport.Transport.DoQuery does what
    DohTransport.Ask says.) */
module TransportTheorems {
  import opened Common
  import opened DnsId
  import opened DnsMessage
  import opened DnsOffsets
  import opened DnsRoundTrip
  import opened Padding
  import opened PaddingTheorems
  import opened ServfailResponse
  import opened DohTransport

  lemma ZeroIdOfFront(m: Message)
    requires Packable(m)
    ensures
      var (b, d) := PackFront(m);
      |b| >= 12 && PackFront(m.(id := 0)) == (ZeroId(b), d)
  {
    var z := m.(id := 0);
    var h, h' := PackHeader(m), PackHeader(z);
    PackQuestionsTail(h, h', map[], m.questions);
    var b, b' := PackFront(m).0, PackFront(z).0;
    assert h' == ZeroId(h);
    ZeroIdOfExtension(h, b, b');
  }

  /** `p` and `p'` go on alike after `b` and after `b` with the ID 0. */
  lemma ZeroIdOfExtension(b: seq<byte>, p: seq<byte>, p': seq<byte>)
    requires |b| >= 2 && b <= p && ZeroId(b) <= p' && p[|b|..] == p'[|b|..]
    ensures p' == ZeroId(p)
  {
    assert p == b + p[|b|..] && p' == ZeroId(b) + p[|b|..];
  }

  /** Writing the ID 0 over a packed message gives the same message with the ID 0. */
  lemma ZeroIdOfPacked(m: Message)
    requires Packable(m)
    ensures |PackAll(m)| >= 2 && Unpack(ZeroId(PackAll(m))) == Some(m.(id := 0))
  {
    var z := m.(id := 0);
    var (b, d) := PackFront(m);
    ZeroIdOfFront(m);
    assert Records(z) == Records(m);
    PackResourcesTail(b, ZeroId(b), d, Records(m));
    ZeroIdOfExtension(b, PackAll(m), PackAll(z));
    RoundTrip(z, PackAll(z));
  }

  /** When a query is posted, and what comes of one that is not. */
  lemma WhenPosted(raw: seq<byte>, hangover: int, w: World)
    ensures
      var o := Ask(raw, hangover, w);
      && (o.posted.Some? <==>
            |raw| >= 2 && hangover <= w.checkTime && AddEdnsPadding(raw).Some? && !w.requestFails)
      && (|raw| < 2 ==> o.status == BadQuery && o.response == None)
      && (|raw| >= 2 && w.checkTime < hangover ==> o.status == HTTPError && o.response == Servfail(raw))
      && (|raw| >= 2 && hangover <= w.checkTime && o.posted.None? ==> o.status == InternalError && o.response == None)
      && (o.posted.None? ==> o.hangover == hangover)
  {
  }

  /** An answer that a query is to be content with: HTTP status 200, and a body that starts with the ID 0. */
  predicate GoodReply(reply: Reply) {
    reply.Replied? && reply.httpStatus == 200 && |reply.body| >= 2 && reply.body[0] == 0 && reply.body[1] == 0
  }

  /** What a query that is posted comes to.  It succeeds if and only if the reply is good, and then gets its
      body, under its own ID.  Every other reply gives the SERVFAIL of the query, and a status of its own;
      and every failure but that to send starts the hangover of 10 seconds. */
  lemma ReplyDecides(raw: seq<byte>, hangover: int, w: World)
    ensures Ask(raw, hangover, w).posted.Some? ==>
              var (o, reply) := (Ask(raw, hangover, w), w.reply);
              && (o.status == Complete <==> GoodReply(reply))
              && (GoodReply(reply) ==> |raw| >= 2 && o.response == Some(raw[..2] + reply.body[2..]))
              && (!GoodReply(reply) ==> o.response == Servfail(raw))
              && (reply.NoReply? ==> o.status == SendFailed)
              && (reply.BodyUnreadable? ==> o.status == BadResponse)
              && (reply.Replied? && reply.httpStatus != 200 ==> o.status == HTTPError)
              && (reply.Replied? && reply.httpStatus == 200 && !GoodReply(reply) ==> o.status == BadResponse)
              && o.hangover == (if GoodReply(reply) || reply.NoReply? then hangover else w.failTime + 10)
  {
    if w.reply.Replied? && |w.reply.body| >= 2 {
      assert WordAt(w.reply.body, 0) == 0 <==> w.reply.body[0] == 0 && w.reply.body[1] == 0;
    }
  }

  /** A failure has no response, or a SERVFAIL to the query.  It has one if the query parses, unless the
      query is too short or could not be turned into a request. */
  lemma FailureIsServfail(raw: seq<byte>, hangover: int, w: World)
    ensures
      var o := Ask(raw, hangover, w);
      o.status != Complete ==>
        && (o.response.Some? ==>
              && Unpack(raw).Some? && Unpack(o.response.value).Some?
              && AnswersServfail(Unpack(raw).value, Unpack(o.response.value).value))
        && (o.status != BadQuery && o.status != InternalError && Unpack(raw).Some? ==> o.response.Some?)
  {
    ServfailAnswers(raw);
  }

  /** What is posted starts with the ID 0, and parses.  If padding had to be added, it parses to the query
      with the ID 0 and one padding option more.  A query that was padded already is posted as it is; it
      parses to itself with the ID 0 if and only if every pointer to the ID leads to an empty name. */
  lemma PostedIsPaddedQuery(raw: seq<byte>, hangover: int, w: World)
    ensures Ask(raw, hangover, w).posted.Some? ==>
              var posted := Ask(raw, hangover, w).posted.value;
              && |posted| >= 2 && posted[..2] == [0, 0]
              && Unpack(raw).Some? && Unpack(posted).Some?
              && (AlreadyPadded(Unpack(raw).value) ==>
                    && posted == ZeroId(raw)
                    && (Unpack(posted) == Some(Unpack(raw).value.(id := 0)) <==> IgnoresId(raw)))
              && (!AlreadyPadded(Unpack(raw).value) ==>
                    OnlyPaddingAdded(Unpack(raw).value.(id := 0), Unpack(posted).value))
  {
    if Ask(raw, hangover, w).posted.Some? {
      if AlreadyPadded(Unpack(raw).value) {
        ZeroIdOfRead(raw);
      } else {
        ZeroIdOfPadded(raw);
      }
    }
  }

  lemma ZeroIdOfRead(raw: seq<byte>)
    requires Unpack(raw).Some?
    ensures |raw| >= 2 && Unpack(ZeroId(raw)).Some?
    ensures Unpack(ZeroId(raw)) == Some(Unpack(raw).value.(id := 0)) <==> IgnoresId(raw)
  {
    ZeroedId(raw, ZeroId(raw));
  }

  lemma ZeroIdOfPadded(raw: seq<byte>)
    requires AddEdnsPadding(raw).Some? && !AlreadyPadded(Unpack(raw).value)
    ensures |AddEdnsPadding(raw).value| >= 2
    ensures
      var posted := ZeroId(AddEdnsPadding(raw).value);
      Unpack(posted).Some? && OnlyPaddingAdded(Unpack(raw).value.(id := 0), Unpack(posted).value)
  {
    var m := Unpack(raw).value;
    PaddingKeepsMeaning(raw);
    PaddedForm(raw);
    var w := WithOpt(m);
    var m' := AddOptionAt(w, LastOpt(w.additionals).value, GetPadding(|PackAll(w)|));
    RoundTrip(m', PackAll(m'));
    ZeroIdOfPacked(m');
    OnlyPaddingWithId(m, m');
  }

  lemma OnlyPaddingWithId(m: Message, m': Message)
    requires OnlyPaddingAdded(m, m')
    ensures OnlyPaddingAdded(m.(id := 0), m'.(id := 0))
  {
  }

  /** The caller's slice comes back as it was, unless no request could be built from an already padded
      query: then, and only then, its ID is lost.  (A corollary of DoQuery, which does what Ask says.) */
  lemma CallerSliceIsRestored(raw: seq<byte>, hangover: int, w: World)
    ensures
      Ask(raw, hangover, w).query == raw <==>
      !(|raw| >= 2 && w.checkTime >= hangover && AddEdnsPadding(raw).Some? && w.requestFails
        && AlreadyPadded(Unpack(raw).value) && raw[..2] != [0, 0])
  {
    if |raw| >= 2 {
      assert raw == raw[..2] + raw[2..];
      assert raw[..2] == [0, 0] ==> ZeroId(raw) == raw;
      assert ZeroId(raw)[..2] == [0, 0];
    }
  }
}
