/** Big-endian encoding of unsigned integers (`to_be_bytes`). */
module Encoding {
  import opened Types

  function Pow256(n: nat): (r: nat)
    ensures r > 0
  {
    if n == 0 then 1 else 256 * Pow256(n - 1)
  }

  /** The low `n` bytes of `x`, most significant first. */
  function ToBE(x: nat, n: nat): (r: Bytes)
    ensures |r| == n
  {
    if n == 0 then [] else ToBE(x / 256, n - 1) + [x % 256]
  }

  /** Reads a big-endian byte string back as a number. */
  function FromBE(s: Bytes): (r: nat)
    ensures r < Pow256(|s|)
  {
    if s == [] then 0 else FromBE(s[..|s| - 1]) * 256 + s[|s| - 1]
  }

  /** Decoding undoes encoding for every value that fits in `n` bytes. */
  lemma {:induction false} FromToBE(x: nat, n: nat)
    requires x < Pow256(n)
    ensures FromBE(ToBE(x, n)) == x
  {
    if n > 0 {
      var q := x / 256;
      var prefix := ToBE(q, n - 1);
      assert ToBE(x, n) == prefix + [x % 256];
      FromBEAppend(prefix, x % 256);
      FromToBE(q, n - 1);
    }
  }

  /** Appending a byte shifts the value one byte up and adds the byte. */
  lemma FromBEAppend(s: Bytes, b: byte)
    ensures FromBE(s + [b]) == FromBE(s) * 256 + b
  {
    assert (s + [b])[..|s|] == s;
  }

  lemma Pow256Eight()
    ensures Pow256(8) == 0x1_0000_0000_0000_0000
  {
    assert Pow256(2) == 0x1_0000;
    assert Pow256(4) == 0x1_0000_0000;
    assert Pow256(6) == 0x1_0000_0000_0000;
  }

  /** `u64::to_be_bytes`: eight bytes that decode back to `x`. */
  function U64ToBE(x: u64): (r: Bytes)
    ensures |r| == 8
    ensures FromBE(r) == x
  {
    Pow256Eight();
    FromToBE(x, 8);
    ToBE(x, 8)
  }
}
