// intra/split/retrier.go, splitHello: where the first upstream segment is cut.
module SplitHello {
  import opened Common

  const MIN_SPLIT := 32
  const MAX_SPLIT := 64

  /** The values the random generator may produce. */
  predicate SplitChoice(r: nat) {
    MIN_SPLIT <= r <= MAX_SPLIT
  }

  /** The two segments for the random choice `r`. */
  function Split(hello: seq<byte>, r: nat): (parts: (seq<byte>, seq<byte>))
    requires SplitChoice(r)
    ensures parts.0 + parts.1 == hello
    // The cut is at `r`, or in the middle if that comes first.
    ensures |parts.0| <= r && |parts.0| <= |parts.1| && (|parts.0| == r || |parts.1| <= |parts.0| + 1)
    ensures |hello| >= 2 ==> 1 <= |parts.0| <= 64
    ensures |hello| >= 64 ==> 32 <= |parts.0|
    ensures |hello| < 2 ==> parts.0 == []
  {
    if |hello| == 0 then (hello, hello)
    else
      var limit := |hello| / 2;
      var s := if r > limit then limit else r;
      (hello[..s], hello[s..])
  }
}
