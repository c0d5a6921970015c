/** A wire codec for DNS messages, standing in for golang.org/x/net/dns/dnsmessage, which doh.go and
    padding.go call but which is not part of the repository.

    Formats: section 4.1 of RFC 1035 (header, question, resource record, name compression) and
    section 6.1.2 of RFC 6891 (the OPT record's options).  Packing compresses every owner name
    against the names before it; RDATA other than that of OPT is opaque. */
module DnsMessage {
  import opened Common

  type Label = l: seq<byte> | 1 <= |l| <= 63 witness [0]
  type Name = seq<Label>

  /** What a compression pointer can hold. */
  const POINTER_LIMIT := 0x4000
  type Offset = x: int | 0 <= x < POINTER_LIMIT

  /** Where each name suffix written so far starts. */
  type Dict = map<Name, Offset>

  type Word = x: int | 0 <= x < U16
  type Nibble = x: int | 0 <= x < 16

  const OPT_TYPE: Word := 41

  datatype Flags = Flags(
    response: bool, opCode: Nibble, authoritative: bool, truncated: bool, recursionDesired: bool,
    recursionAvailable: bool, rCode: Nibble)

  datatype Question = Question(name: Name, qtype: Word, qclass: Word)

  datatype EdnsOption = EdnsOption(code: Word, data: seq<byte>)

  datatype Body = Opaque(rtype: Word, data: seq<byte>) | Opt(options: seq<EdnsOption>)

  datatype Resource = Resource(name: Name, rclass: Word, ttlHigh: Word, ttlLow: Word, body: Body)

  datatype Message = Message(
    id: Word, flags: Flags, questions: seq<Question>, answers: seq<Resource>, authorities: seq<Resource>,
    additionals: seq<Resource>)

  // Numbers

  function PutWord(v: Word): (b: seq<byte>)
    ensures |b| == 2
  {
    [v / 256, v % 256]
  }

  /** The big-endian number at `off`. */
  function WordAt(msg: seq<byte>, off: nat): Word
    requires off + 2 <= |msg|
  {
    var high: int := msg[off];
    high * 256 + msg[off + 1]
  }

  function Bit(b: bool, weight: nat): nat {
    if b then weight else 0
  }

  function PutFlags(f: Flags): (b: seq<byte>)
    ensures |b| == 2
  {
    [Bit(f.response, 128) + f.opCode * 8 + Bit(f.authoritative, 4) + Bit(f.truncated, 2) + Bit(f.recursionDesired, 1),
     Bit(f.recursionAvailable, 128) + f.rCode]
  }

  function FlagsOf(high: byte, low: byte): Flags {
    Flags(high / 128 == 1, high / 8 % 16, high / 4 % 2 == 1, high / 2 % 2 == 1, high % 2 == 1, low / 128 == 1, low % 16)
  }

  // Names

  /** A compression pointer: two high bits, and a 14-bit offset. */
  function PutPointer(o: Offset): (b: seq<byte>)
    ensures |b| == 2
  {
    [192 + o / 256, o % 256]
  }

  function PointerAt(msg: seq<byte>, off: nat): nat
    requires off + 2 <= |msg| && msg[off] >= 192
  {
    var high: int := msg[off];
    (high - 192) * 256 + msg[off + 1]
  }

  function PutLabel(l: Label): seq<byte> {
    [|l|] + l
  }

  /** The dictionary once the first label of `n` is at the end of `buf`, if a pointer can reach it. */
  function Entered(buf: seq<byte>, dict: Dict, n: Name): Dict {
    if |buf| < POINTER_LIMIT then dict[n := |buf|] else dict
  }

  /** `n` written at the end of `buf`. */
  function PackName(buf: seq<byte>, dict: Dict, n: Name): (seq<byte>, Dict)
    decreases |n|
  {
    if n == [] then (buf + [0], dict)
    else if n in dict then (buf + PutPointer(dict[n]), dict)
    else
      PackName(buf + PutLabel(n[0]), Entered(buf, dict, n), n[1..])
  }

  /** The name at `off`, and where what follows it starts.  A pointer must lead to before `start`,
      where the labels now being read began. */
  function UnpackName(msg: seq<byte>, off: nat, start: nat): (r: Option<(Name, nat)>)
    requires start <= off
    ensures r.Some? ==> off < r.value.1 <= |msg|
    decreases start, |msg| - off
  {
    if off >= |msg| then None
    else
      var c: int := msg[off];
      if c == 0 then Some(([], off + 1))
      else if c < 64 then
        var next := off + 1 + c;
        if next > |msg| then None
        else
          var rest := UnpackName(msg, next, start);
          if rest.None? then None else Some(([msg[off + 1..next]] + rest.value.0, rest.value.1))
      else if c >= 192 && off + 2 <= |msg| then
        var target := PointerAt(msg, off);
        if target >= start then None
        else
          var rest := UnpackName(msg, target, target);
          if rest.None? then None else Some((rest.value.0, off + 2))
      else None
  }

  // Questions

  function PackQuestion(buf: seq<byte>, dict: Dict, q: Question): (seq<byte>, Dict) {
    var (b, d) := PackName(buf, dict, q.name);
    (b + PutWord(q.qtype) + PutWord(q.qclass), d)
  }

  function PackQuestions(buf: seq<byte>, dict: Dict, qs: seq<Question>): (seq<byte>, Dict)
    decreases |qs|
  {
    if qs == [] then (buf, dict)
    else
      var (b, d) := PackQuestion(buf, dict, qs[0]);
      PackQuestions(b, d, qs[1..])
  }

  function UnpackQuestion(msg: seq<byte>, off: nat): (r: Option<(Question, nat)>) {
    var n := UnpackName(msg, off, off);
    if n.None? || n.value.1 + 4 > |msg| then None
    else
      var (name, p) := n.value;
      Some((Question(name, WordAt(msg, p), WordAt(msg, p + 2)), p + 4))
  }

  function UnpackQuestions(msg: seq<byte>, off: nat, count: nat): (r: Option<(seq<Question>, nat)>)
    ensures r.Some? ==> |r.value.0| == count
    decreases count
  {
    if count == 0 then Some(([], off))
    else
      var first := UnpackQuestion(msg, off);
      if first.None? then None
      else
        var rest := UnpackQuestions(msg, first.value.1, count - 1);
        if rest.None? then None else Some(([first.value.0] + rest.value.0, rest.value.1))
  }

  // Resource records

  predicate OptionsFit(os: seq<EdnsOption>) {
    forall i :: 0 <= i < |os| ==> |os[i].data| < U16
  }

  function PackOptions(os: seq<EdnsOption>): seq<byte>
    requires OptionsFit(os)
  {
    if os == [] then []
    else PutWord(os[0].code) + PutWord(|os[0].data|) + os[0].data + PackOptions(os[1..])
  }

  function UnpackOptions(rdata: seq<byte>): (r: Option<seq<EdnsOption>>)
    ensures r.Some? ==> OptionsFit(r.value)
    decreases |rdata|
  {
    if rdata == [] then Some([])
    else if |rdata| < 4 || 4 + WordAt(rdata, 2) > |rdata| then None
    else
      var size := WordAt(rdata, 2);
      var rest := UnpackOptions(rdata[4 + size..]);
      if rest.None? then None
      else Some([EdnsOption(WordAt(rdata, 0), rdata[4..4 + size])] + rest.value)
  }

  function RType(b: Body): Word {
    if b.Opt? then OPT_TYPE else b.rtype
  }

  function RData(b: Body): seq<byte>
    requires b.Opt? ==> OptionsFit(b.options)
  {
    if b.Opt? then PackOptions(b.options) else b.data
  }

  /** The record's RDATA has a length that the wire can carry, and its type says what it is. */
  predicate Fits(r: Resource) {
    && (r.body.Opt? ==> OptionsFit(r.body.options))
    && |RData(r.body)| < U16
    && (r.body.Opaque? ==> r.body.rtype != OPT_TYPE)
  }

  predicate AllFit(rs: seq<Resource>) {
    forall i :: 0 <= i < |rs| ==> Fits(rs[i])
  }

  /** Everything of the record but its owner name. */
  function PackRest(r: Resource): seq<byte>
    requires Fits(r)
  {
    PutWord(RType(r.body)) + PutWord(r.rclass) + PutWord(r.ttlHigh) + PutWord(r.ttlLow) + PutWord(|RData(r.body)|)
    + RData(r.body)
  }

  function PackResource(buf: seq<byte>, dict: Dict, r: Resource): (seq<byte>, Dict)
    requires Fits(r)
  {
    var (b, d) := PackName(buf, dict, r.name);
    (b + PackRest(r), d)
  }

  function PackResources(buf: seq<byte>, dict: Dict, rs: seq<Resource>): (seq<byte>, Dict)
    requires AllFit(rs)
    decreases |rs|
  {
    if rs == [] then (buf, dict)
    else
      var (b, d) := PackResource(buf, dict, rs[0]);
      PackResources(b, d, rs[1..])
  }

  function UnpackBody(rtype: Word, rdata: seq<byte>): Option<Body> {
    if rtype != OPT_TYPE then Some(Opaque(rtype, rdata))
    else
      var os := UnpackOptions(rdata);
      if os.None? then None else Some(Opt(os.value))
  }

  /** The record with this owner name, whose other fields start at `p`. */
  function UnpackRest(msg: seq<byte>, name: Name, p: nat): (r: Option<(Resource, nat)>) {
    if p + 10 > |msg| then None
    else
      var size := WordAt(msg, p + 8);
      if p + 10 + size > |msg| then None
      else
        var body := UnpackBody(WordAt(msg, p), msg[p + 10..p + 10 + size]);
        if body.None? then None
        else
          var r := Resource(name, WordAt(msg, p + 2), WordAt(msg, p + 4), WordAt(msg, p + 6), body.value);
          Some((r, p + 10 + size))
  }

  function UnpackResource(msg: seq<byte>, off: nat): (r: Option<(Resource, nat)>) {
    var n := UnpackName(msg, off, off);
    if n.None? then None else UnpackRest(msg, n.value.0, n.value.1)
  }

  function UnpackResources(msg: seq<byte>, off: nat, count: nat): (r: Option<(seq<Resource>, nat)>)
    ensures r.Some? ==> |r.value.0| == count
    decreases count
  {
    if count == 0 then Some(([], off))
    else
      var first := UnpackResource(msg, off);
      if first.None? then None
      else
        var rest := UnpackResources(msg, first.value.1, count - 1);
        if rest.None? then None else Some(([first.value.0] + rest.value.0, rest.value.1))
  }

  // Messages

  function Records(m: Message): seq<Resource> {
    m.answers + m.authorities + m.additionals
  }

  /** What Pack accepts: section sizes and record sizes that the wire can carry. */
  predicate Packable(m: Message) {
    && |m.questions| < U16 && |m.answers| < U16 && |m.authorities| < U16 && |m.additionals| < U16
    && AllFit(Records(m))
  }

  function PackHeader(m: Message): (b: seq<byte>)
    requires Packable(m)
    ensures |b| == 12
  {
    PutWord(m.id) + PutFlags(m.flags)
    + PutWord(|m.questions|) + PutWord(|m.answers|) + PutWord(|m.authorities|) + PutWord(|m.additionals|)
  }

  /** The header and the questions. */
  function PackFront(m: Message): (seq<byte>, Dict)
    requires Packable(m)
  {
    PackQuestions(PackHeader(m), map[], m.questions)
  }

  function PackAll(m: Message): seq<byte>
    requires Packable(m)
  {
    var (b, d) := PackFront(m);
    PackResources(b, d, Records(m)).0
  }

  function Pack(m: Message): Option<seq<byte>> {
    if Packable(m) then Some(PackAll(m)) else None
  }

  /** Bytes after the last record are ignored. */
  function Unpack(msg: seq<byte>): Option<Message> {
    if |msg| < 12 then None
    else
      var an: int, ns: int, ar: int := WordAt(msg, 6), WordAt(msg, 8), WordAt(msg, 10);
      var qs := UnpackQuestions(msg, 12, WordAt(msg, 4));
      if qs.None? then None
      else
        var rs := UnpackResources(msg, qs.value.1, an + ns + ar);
        if rs.None? then None
        else
          var r := rs.value.0;
          Some(Message(WordAt(msg, 0), FlagsOf(msg[2], msg[3]), qs.value.0, r[..an], r[an..an + ns], r[an + ns..]))
  }
}
