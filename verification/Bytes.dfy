/** Bytes, and the two fixed-width integer layouts the wire uses. */
module Bytes {

  newtype byte = x: int | 0 <= x < 256

  type Bytes = seq<byte>

  type u64 = x: int | 0 <= x < 0x1_0000_0000_0000_0000

  /** 256 to the power `n`: the number of values `n` bytes can hold. */
  function Pow256(n: nat): nat {
    if n == 0 then 1 else 256 * Pow256(n - 1)
  }

  lemma Pow256Widths()
    ensures Pow256(4) == 0x1_0000_0000
    ensures Pow256(8) == 0x1_0000_0000_0000_0000
  {
    assert Pow256(2) == 0x1_0000;
    assert Pow256(4) == 256 * (256 * Pow256(2));
    assert Pow256(6) == 256 * (256 * Pow256(4));
    assert Pow256(8) == 256 * (256 * Pow256(6));
  }

  /** Little-endian layout, least significant byte first. */
  function LeBytes(x: nat, n: nat): (s: Bytes)
    ensures |s| == n
  {
    if n == 0 then [] else [(x % 256) as byte] + LeBytes(x / 256, n - 1)
  }

  function LeValue(s: Bytes): nat {
    if s == [] then 0 else s[0] as nat + 256 * LeValue(s[1..])
  }

  /** Big-endian layout, most significant byte first. */
  function BeBytes(x: nat, n: nat): (s: Bytes)
    ensures |s| == n
  {
    if n == 0 then [] else BeBytes(x / 256, n - 1) + [(x % 256) as byte]
  }

  function BeValue(s: Bytes): nat {
    if s == [] then 0 else 256 * BeValue(s[..|s| - 1]) + s[|s| - 1] as nat
  }

  lemma {:induction false} LeDecodesEncoded(x: nat, n: nat)
    requires x < Pow256(n)
    ensures LeValue(LeBytes(x, n)) == x
  {
    if n > 0 {
      var s := LeBytes(x, n);
      assert s[1..] == LeBytes(x / 256, n - 1);
      LeDecodesEncoded(x / 256, n - 1);
    }
  }

  lemma {:induction false} LeEncodesDecoded(s: Bytes)
    ensures LeValue(s) < Pow256(|s|)
    ensures LeBytes(LeValue(s), |s|) == s
  {
    if s != [] {
      LeEncodesDecoded(s[1..]);
      assert LeValue(s) % 256 == s[0] as nat;
      assert LeValue(s) / 256 == LeValue(s[1..]);
      assert s == [s[0]] + s[1..];
    }
  }

  lemma {:induction false} BeDecodesEncoded(x: nat, n: nat)
    requires x < Pow256(n)
    ensures BeValue(BeBytes(x, n)) == x
  {
    if n > 0 {
      var s := BeBytes(x, n);
      assert s[..|s| - 1] == BeBytes(x / 256, n - 1);
      BeDecodesEncoded(x / 256, n - 1);
    }
  }

  lemma {:induction false} BeEncodesDecoded(s: Bytes)
    ensures BeValue(s) < Pow256(|s|)
    ensures BeBytes(BeValue(s), |s|) == s
  {
    if s != [] {
      var front, last := s[..|s| - 1], s[|s| - 1];
      BeEncodesDecoded(front);
      assert BeValue(s) % 256 == last as nat && BeValue(s) / 256 == BeValue(front);
      assert s == front + [last];
    }
  }

  /** Eight little-endian bytes, by their weights. */
  lemma {:induction false} LeWeights(s: Bytes)
    requires |s| == 8
    ensures LeValue(s) ==
              s[0] as nat + 0x100 * s[1] as nat + 0x1_0000 * s[2] as nat + 0x100_0000 * s[3] as nat
              + 0x1_0000_0000 * s[4] as nat + 0x100_0000_0000 * s[5] as nat
              + 0x1_0000_0000_0000 * s[6] as nat + 0x100_0000_0000_0000 * s[7] as nat
  {
    forall i | 0 <= i < 8 ensures LeValue(s[i..]) == s[i] as nat + 256 * LeValue(s[i + 1..]) {
      assert s[i..][1..] == s[i + 1..];
    }
    assert s[0..] == s && s[8..] == [];
    assert LeValue(s[6..]) == s[6] as nat + 0x100 * s[7] as nat;
    assert LeValue(s[4..]) == s[4] as nat + 0x100 * s[5] as nat + 0x1_0000 * LeValue(s[6..]);
    assert LeValue(s[2..]) == s[2] as nat + 0x100 * s[3] as nat + 0x1_0000 * LeValue(s[4..]);
  }

  /** The four-byte big-endian length prefix. */
  function PutU32(x: nat): (s: Bytes)
    ensures |s| == 4
  {
    BeBytes(x, 4)
  }

  function ReadU32(s: Bytes): nat
    requires |s| == 4
  {
    BeValue(s)
  }

  /** What the four bytes announce, by their weights. */
  lemma {:induction false} PrefixWeights(s: Bytes)
    requires |s| == 4
    ensures ReadU32(s) == s[0] as nat * 0x100_0000 + s[1] as nat * 0x1_0000 + s[2] as nat * 0x100 + s[3] as nat
    ensures PutU32(ReadU32(s)) == s
  {
    BeEncodesDecoded(s);
    assert s[..3][..2] == s[..2] && s[..2][..1] == s[..1] && s[..1][..0] == [];
    assert BeValue(s[..1]) == 256 * BeValue(s[..1][..0]) + s[..1][0] as nat;
    assert BeValue(s[..2]) == 256 * BeValue(s[..2][..1]) + s[..2][1] as nat;
    assert BeValue(s[..3]) == 256 * BeValue(s[..3][..2]) + s[..3][2] as nat;
  }

  lemma U32RoundTrip(x: nat)
    requires x < 0x1_0000_0000
    ensures ReadU32(PutU32(x)) == x
  {
    Pow256Widths();
    BeDecodesEncoded(x, 4);
  }
}
