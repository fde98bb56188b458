/** The Internet checksum (section 1 of RFC 1071) as src/transport/xdp/frame.rs computes
    it: once in full, and once from a precomputed base with exactly two folds. */
module Checksum {
  import opened Machine
  import opened Bytes

  /** Sum of the first `n` big-endian words. */
  function SumWords(h: seq<Byte>, n: nat): nat
    requires 2 * n <= |h|
  {
    if n == 0 then 0 else SumWords(h, n - 1) + Word(h[2 * n - 2], h[2 * n - 1])
  }

  /** One end-around carry: `(sum & 0xFFFF) + (sum >> 16)`. */
  function Fold(sum: nat): nat {
    sum % 65536 + sum / 65536
  }

  /** The one's-complement value of a sum: congruent to it modulo 65535, and 0 only
      for 0. This is the reference the code's folding is measured against. */
  function OnesComplement(sum: nat): U16 {
    if sum == 0 then 0 else (sum - 1) % 65535 + 1
  }

  /** The checksum of a header, by definition. */
  function ChecksumOf(h: seq<Byte>): U16 {
    65535 - OnesComplement(SumWords(h, |h| / 2))
  }

  lemma FoldKeepsValue(sum: nat)
    ensures OnesComplement(Fold(sum)) == OnesComplement(sum)
    ensures sum >= 65536 ==> Fold(sum) < sum
  {
  }

  lemma FoldedValue(sum: nat)
    requires sum < 65536
    ensures OnesComplement(sum) == sum
  {
  }

  /** Two folds are enough for the sum of up to 65535 words. */
  lemma TwoFoldsSuffice(sum: nat)
    requires sum <= 0xffff_0000
    ensures Fold(Fold(sum)) == OnesComplement(sum)
  {
  }

  /** Putting the checksum of a non-zero sum back into it makes the checksum 0. */
  lemma ChecksumCancels(sum: nat)
    requires sum > 0
    ensures OnesComplement(sum + (65535 - OnesComplement(sum))) == 65535
  {
  }

  /** `ipv4_checksum`: sum all words, then fold until nothing is left to carry. */
  method Ipv4Checksum(hdr: seq<Byte>) returns (ck: U16)
    ensures ck == ChecksumOf(hdr)
  {
    var sum: nat := 0;
    for i := 0 to |hdr| / 2
      invariant sum == SumWords(hdr, i)
    {
      sum := sum + Word(hdr[2 * i], hdr[2 * i + 1]);
    }
    while sum / 65536 != 0
      invariant OnesComplement(sum) == OnesComplement(SumWords(hdr, |hdr| / 2))
      decreases sum
    {
      FoldKeepsValue(sum);
      sum := Fold(sum);
    }
    FoldedValue(sum);
    ck := 65535 - sum;
  }

  lemma TenWords(h: seq<Byte>)
    requires |h| == 20
    ensures SumWords(h, 10) ==
      Word(h[0], h[1]) + Word(h[2], h[3]) + Word(h[4], h[5]) + Word(h[6], h[7]) + Word(h[8], h[9]) +
      Word(h[10], h[11]) + Word(h[12], h[13]) + Word(h[14], h[15]) + Word(h[16], h[17]) + Word(h[18], h[19])
  {
    assert SumWords(h, 1) == Word(h[0], h[1]);
    assert SumWords(h, 3) == SumWords(h, 1) + Word(h[2], h[3]) + Word(h[4], h[5]);
    assert SumWords(h, 5) == SumWords(h, 3) + Word(h[6], h[7]) + Word(h[8], h[9]);
    assert SumWords(h, 7) == SumWords(h, 5) + Word(h[10], h[11]) + Word(h[12], h[13]);
    assert SumWords(h, 9) == SumWords(h, 7) + Word(h[14], h[15]) + Word(h[16], h[17]);
  }
}
