/** Numbers as bytes, the lowest byte first. */
module Endian {
  import opened Bytes

  function Pow256(n: nat): (p: nat)
    ensures p >= 1
  {
    if n == 0 then 1 else 256 * Pow256(n - 1)
  }

  function LittleBytes(x: nat, n: nat): (s: seq<byte>)
    ensures |s| == n
  {
    if n == 0 then [] else [x % 256] + LittleBytes(x / 256, n - 1)
  }

  function LittleValue(s: seq<byte>): (x: nat)
    ensures x < Pow256(|s|)
  {
    if s == [] then 0 else s[0] + 256 * LittleValue(s[1..])
  }

  lemma {:induction false} BytesValue(x: nat, n: nat)
    requires x < Pow256(n)
    ensures LittleValue(LittleBytes(x, n)) == x
  {
    if n > 0 {
      BytesValue(x / 256, n - 1);
      assert LittleBytes(x, n)[1..] == LittleBytes(x / 256, n - 1);
    }
  }

  lemma {:induction false} ValueBytes(s: seq<byte>)
    ensures LittleBytes(LittleValue(s), |s|) == s
  {
    if s != [] { ValueBytes(s[1..]); }
  }

  lemma Sizes256()
    ensures Pow256(4) == 0x1_0000_0000 && Pow256(8) == 0x1_0000_0000_0000_0000
  {
    assert Pow256(2) == 0x1_0000;
    assert Pow256(5) == 256 * Pow256(4) && Pow256(6) == 256 * Pow256(5);
  }
}
