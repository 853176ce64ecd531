/** The transform applied to every backend response before it is sent to the client. */
module ResponseTransform {
  import opened Bytes

  /** `response[:-2] + response[-1:] + response[-2:-1]` when the response has at least two bytes. */
  function SwapLastTwo(r: seq<Byte>): (s: seq<Byte>)
    ensures |s| == |r|
    ensures |r| < 2 ==> s == r
    ensures |r| >= 2 ==> s[..|r| - 2] == r[..|r| - 2]
    ensures |r| >= 2 ==> s[|r| - 2] == r[|r| - 1] && s[|r| - 1] == r[|r| - 2]
  {
    if |r| >= 2 then r[..|r| - 2] + r[|r| - 1..] + r[|r| - 2..|r| - 1] else r
  }

  /** The transform is its own inverse. */
  lemma SwapInvolution(r: seq<Byte>)
    ensures SwapLastTwo(SwapLastTwo(r)) == r
  {
    var s := SwapLastTwo(SwapLastTwo(r));
    assert |s| == |r|;
    forall k | 0 <= k < |r| ensures s[k] == r[k] {
      if |r| >= 2 && k < |r| - 2 {
        assert s[k] == s[..|r| - 2][k];
      }
    }
  }

  /** The documented example: `AA BB CC DD` is delivered as `AA BB DD CC`. */
  lemma SwapExample()
    ensures SwapLastTwo([0xAA, 0xBB, 0xCC, 0xDD]) == [0xAA, 0xBB, 0xDD, 0xCC]
  {
  }
}
