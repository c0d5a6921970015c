// intra/doh/padding.go: padding a raw DNS query to a multiple of 128 bytes.
module Padding {
  import opened Common
  import opened DnsMessage

  const OPT_RESOURCE_PADDING_CODE: Word := 12
  const PADDING_BLOCK_SIZE := 128  // section 4.1 of RFC 8467

  /** OPTION-CODE and OPTION-LENGTH, section 3 of RFC 7830 */
  const OPT_PADDING_HEADER_LEN := 4

  function ComputePaddingSize(msgLen: nat, blockSize: nat): (size: nat)
    requires blockSize > 0
    ensures size < blockSize && (msgLen + OPT_PADDING_HEADER_LEN + size) % blockSize == 0
  {
    var used := (msgLen + OPT_PADDING_HEADER_LEN) % blockSize;
    var padSize := blockSize - used;
    Remainder(blockSize, 1, 0, blockSize);
    assert used != 0 ==> padSize % blockSize == padSize;
    NextBlock(msgLen + OPT_PADDING_HEADER_LEN, blockSize);
    padSize % blockSize
  }

  lemma {:induction false} ProductGrows(b: nat, p: int, q: int)
    requires p < q
    ensures b * p + b <= b * q
    decreases q - p
  {
    assert b * q == b * (q - 1) + b;
    if p < q - 1 {
      ProductGrows(b, p, q - 1);
    }
  }

  lemma Remainder(b: nat, q: int, r: nat, x: int)
    requires r < b && x == b * q + r
    ensures x % b == r
  {
    var q' := x / b;
    assert x == b * q' + x % b;
    if q > q' {
      ProductGrows(b, q', q);
    } else if q < q' {
      ProductGrows(b, q, q');
    }
  }

  lemma NextBlock(x: nat, b: nat)
    requires b > 0
    ensures (x + (b - x % b)) % b == 0
  {
    var q := x / b;
    assert x == b * q + x % b;
    assert b * (q + 1) == b * q + b;
    Remainder(b, q + 1, 0, x + (b - x % b));
  }

  function GetPadding(msgLen: nat): EdnsOption {
    EdnsOption(OPT_RESOURCE_PADDING_CODE, seq(ComputePaddingSize(msgLen, PADDING_BLOCK_SIZE), _ => 0))
  }

  predicate HasPadding(os: seq<EdnsOption>) {
    exists i :: 0 <= i < |os| && os[i].code == OPT_RESOURCE_PADDING_CODE
  }

  /** Where the last OPT record is.  (The `break` at :71 leaves the switch, not the loop.) */
  predicate IsLastOpt(rs: seq<Resource>, i: nat) {
    i < |rs| && rs[i].body.Opt? && forall j :: i < j < |rs| ==> !rs[j].body.Opt?
  }

  predicate NoOpt(rs: seq<Resource>) {
    forall j :: 0 <= j < |rs| ==> !rs[j].body.Opt?
  }

  function LastOpt(rs: seq<Resource>): (i: Option<nat>)
    ensures i.None? ==> NoOpt(rs)
    ensures i.Some? ==> IsLastOpt(rs, i.value)
  {
    if rs == [] then None
    else
      var n := |rs| - 1;
      if rs[n].body.Opt? then Some(n) else LastOpt(rs[..n])
  }

  /** The record that SetEDNS0(65535, RCodeSuccess, false) describes, without options. */
  const FRESH_OPT := Resource([], 65535, 0, 0, Opt([]))

  /** `m` with an OPT record, which is the last one. */
  function WithOpt(m: Message): Message {
    if LastOpt(m.additionals).Some? then m else m.(additionals := m.additionals + [FRESH_OPT])
  }

  function AddOption(r: Resource, o: EdnsOption): Resource
    requires r.body.Opt?
  {
    r.(body := Opt(r.body.options + [o]))
  }

  function AddOptionAt(m: Message, i: nat, o: EdnsOption): Message
    requires IsLastOpt(m.additionals, i)
  {
    m.(additionals := m.additionals[i := AddOption(m.additionals[i], o)])
  }

  lemma WithOptHasOpt(m: Message)
    ensures LastOpt(WithOpt(m).additionals).Some?
  {
  }

  predicate AlreadyPadded(m: Message) {
    var i := LastOpt(m.additionals);
    i.Some? && HasPadding(m.additionals[i.value].body.options)
  }

  /** AddEdnsPadding; None stands for an error. */
  function AddEdnsPadding(raw: seq<byte>): Option<seq<byte>> {
    var u := Unpack(raw);
    if u.None? then None
    else if AlreadyPadded(u.value) then Some(raw)
    else
      var m := WithOpt(u.value);
      var compressed := Pack(m);
      if compressed.None? then None
      else
        WithOptHasOpt(u.value);
        Pack(AddOptionAt(m, LastOpt(m.additionals).value, GetPadding(|compressed.value|)))
  }

  /** The search at :67-73. */
  method FindOpt(additionals: seq<Resource>) returns (optRes: Option<nat>)
    ensures optRes == LastOpt(additionals)
  {
    optRes := None;
    for i := 0 to |additionals|
      invariant optRes == LastOpt(additionals[..i])
    {
      assert additionals[..i + 1][..i] == additionals[..i];
      if additionals[i].body.Opt? {
        optRes := Some(i);
      }
    }
    assert additionals[..|additionals|] == additionals;
  }

  /** The search at :77-81. */
  method FindPadding(options: seq<EdnsOption>) returns (found: bool)
    ensures found <==> HasPadding(options)
  {
    for i := 0 to |options|
      invariant !HasPadding(options[..i])
    {
      if options[i].code == OPT_RESOURCE_PADDING_CODE {
        return true;
      }
    }
    assert options[..|options|] == options;
    return false;
  }

  /** AddEdnsPadding as written, with a message that is updated between two packs. */
  method AddEdnsPaddingStepwise(raw: seq<byte>) returns (result: Option<seq<byte>>)
    ensures result == AddEdnsPadding(raw)
  {
    var u := Unpack(raw);
    if u.None? {
      return None;
    }
    var msg := u.value;
    var optRes := FindOpt(msg.additionals);
    if optRes.Some? {
      var found := FindPadding(msg.additionals[optRes.value].body.options);
      if found {
        return Some(raw);
      }
    } else {
      optRes := Some(|msg.additionals|);
      msg := msg.(additionals := msg.additionals + [FRESH_OPT]);
    }
    assert msg == WithOpt(u.value) && optRes == LastOpt(msg.additionals);
    var compressed := Pack(msg);
    if compressed.None? {
      return None;
    }
    var padding := GetPadding(|compressed.value|);
    msg := AddOptionAt(msg, optRes.value, padding);
    result := Pack(msg);
  }
}
