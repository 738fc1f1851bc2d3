/** src/utils.c and the checksum of src/tcp.c: the Internet checksum as the C code computes it, on bytes in
    memory read as little-endian words, against RFC 1071, which sums big-endian words with end-around carry. */
module Checksum {
  import opened Words

  const ONES: u16 := 0xFFFF

  function Word(lo: byte, hi: byte): u16 {
    lo + 0x100 * hi
  }

  /** The sum of the little-endian words of `b`; an odd last byte counts as it is. */
  function Sum16(b: seq<byte>): nat {
    if b == [] then 0 else if |b| == 1 then b[0] else Word(b[0], b[1]) + Sum16(b[2..])
  }

  /** The only 16-bit value that is congruent to `x` modulo 65535 and zero only if `x` is. */
  function Fold(x: nat): u16 {
    if x == 0 then 0 else 1 + (x - 1) % ONES
  }

  function Sum(b: seq<byte>, start: u32): u16 {
    ONES - Fold(U32(start + Sum16(b)))
  }

  // ----- the loops -----

  lemma U32Adds(x: nat, y: nat)
    ensures U32(U32(x) + y) == U32(x + y)
  {
  }

  /** `sum_every_16bits`. */
  method SumEvery16Bits(data: seq<byte>, count: nat) returns (sum: u32)
    requires count <= |data|
    ensures sum == U32(Sum16(data[..count]))
  {
    sum := 0;
    var ptr, left := 0, count;
    while left > 1
      invariant ptr + left == count
      invariant U32(sum + Sum16(data[ptr..count])) == U32(Sum16(data[..count]))
    {
      ghost var rest := data[ptr..count];
      assert rest[2..] == data[ptr + 2..count];
      assert Sum16(rest) == Word(data[ptr], data[ptr + 1]) + Sum16(rest[2..]);
      U32Adds(sum + Word(data[ptr], data[ptr + 1]), Sum16(rest[2..]));
      hide U32, Word;
      sum := U32(sum + Word(data[ptr], data[ptr + 1]));
      ptr, left := ptr + 2, left - 2;
    }
    if left > 0 {
      assert data[ptr..count] == [data[ptr]];
      sum := U32(sum + data[ptr]);
    }
  }

  /** `checksum`: the loop that folds the carries back terminates in the ones' complement sum. */
  method ComputeChecksum(data: seq<byte>, count: nat, startSum: u32) returns (r: u16)
    requires count <= |data|
    ensures r == Sum(data[..count], startSum)
  {
    var part := SumEvery16Bits(data, count);
    var sum: u32 := U32(startSum + part);
    assert sum == U32(startSum + Sum16(data[..count]));
    while sum / 0x1_0000 > 0
      invariant Fold(sum) == Fold(U32(startSum + Sum16(data[..count])))
      decreases sum
    {
      FoldCarries(sum);
      sum := sum % 0x1_0000 + sum / 0x1_0000;
    }
    r := ONES - sum;
  }

  // ----- folding -----

  lemma ModShift(x: nat, k: nat)
    ensures (x + ONES * k) % ONES == x % ONES
  {
  }

  lemma FoldCarries(x: nat)
    requires x >= 0x1_0000
    ensures Fold(x) == Fold(x % 0x1_0000 + x / 0x1_0000)
  {
    var y := x % 0x1_0000 + x / 0x1_0000;
    ModShift(y - 1, x / 0x1_0000);
  }

  /** Folding keeps the sum modulo 65535, and is zero only for zero; that determines it. */
  lemma FoldMeaning(x: nat)
    ensures Fold(x) % ONES == x % ONES && (Fold(x) == 0 <==> x == 0)
  {
  }

  lemma FoldEqual(x: nat, y: nat)
    ensures Fold(x) == Fold(y) <==> (x % ONES == y % ONES && (x == 0 <==> y == 0))
  {
  }

  lemma FoldSmall(x: u16)
    ensures Fold(x) == x
  {
  }

  lemma FoldShift(x: nat, k: nat)
    requires x > 0
    ensures Fold(x + ONES * k) == Fold(x)
  {
    ModShift(x - 1, k);
  }

  // ----- RFC 1071 -----

  /** Ones' complement addition: the carry out of the top bit comes back in at the bottom. */
  function OnesAdd(x: u16, y: u16): u16 {
    if x + y > ONES then x + y - ONES else x + y
  }

  /** The ones' complement sum of the words of `b` in network byte order, an odd byte padded with zero. */
  function OnesSum(b: seq<byte>): u16 {
    if b == [] then 0
    else if |b| == 1 then Word(0, b[0])
    else OnesAdd(Word(b[1], b[0]), OnesSum(b[2..]))
  }

  function Rfc1071(b: seq<byte>): u16 {
    ONES - OnesSum(b)
  }

  /** The host's reading of a 16-bit field stored in network byte order, and back. */
  function Swap(x: u16): u16 {
    Word(x / 0x100, x % 0x100)
  }

  lemma AddFolds(x: nat, y: nat)
    ensures OnesAdd(Fold(x), Fold(y)) == Fold(x + y)
  {
    var i, j := (x - Fold(x)) / ONES, (y - Fold(y)) / ONES;
    assert x == Fold(x) + ONES * i && y == Fold(y) + ONES * j;
    var s := Fold(x) + Fold(y);
    assert x + y == s + ONES * (i + j);
    if s > 0 {
      FoldShift(s, i + j);
    }
  }

  lemma SwapIsFold(x: u16)
    ensures Swap(x) == Fold(0x100 * x)
  {
    var hi, lo := x / 0x100, x % 0x100;
    assert 0x100 * x == Swap(x) + ONES * hi;
    if x > 0 {
      FoldShift(Swap(x), hi);
    }
  }

  /** Swapping the bytes of both operands swaps the bytes of the ones' complement sum. */
  lemma SwapAdds(x: u16, y: u16)
    ensures Swap(OnesAdd(x, y)) == OnesAdd(Swap(x), Swap(y))
  {
    SwapIsFold(x);
    SwapIsFold(y);
    AddFolds(0x100 * x, 0x100 * y);
    SwapIsFold(OnesAdd(x, y));
    if x + y > ONES {
      FoldShift(0x100 * (x + y - ONES), 0x100);
    }
  }

  lemma SwapTwice(lo: byte, hi: byte)
    ensures Swap(Word(lo, hi)) == Word(hi, lo)
  {
    var x := Word(lo, hi);
    assert x / 0x100 == hi;
    assert x % 0x100 == lo;
  }

  /** Summing little-endian words gives the byte-swapped ones' complement sum, odd lengths included. */
  lemma {:induction false} SumIsOnesSum(b: seq<byte>)
    ensures Fold(Sum16(b)) == Swap(OnesSum(b))
  {
    if |b| == 1 {
      FoldSmall(b[0]);
      SwapTwice(0, b[0]);
    } else if |b| > 1 {
      assert Sum16(b) == Word(b[0], b[1]) + Sum16(b[2..]);
      assert OnesSum(b) == OnesAdd(Word(b[1], b[0]), OnesSum(b[2..]));
      hide *;
      SumIsOnesSum(b[2..]);
      AddFolds(Word(b[0], b[1]), Sum16(b[2..]));
      FoldSmall(Word(b[0], b[1]));
      SwapTwice(b[1], b[0]);
      SwapAdds(Word(b[1], b[0]), OnesSum(b[2..]));
    }
  }

  lemma SwapComplement(x: u16)
    ensures Swap(ONES - x) == ONES - Swap(x)
  {
  }

  lemma {:induction false} SumBound(b: seq<byte>)
    ensures Sum16(b) <= ONES * ((|b| + 1) / 2)
  {
    if |b| > 1 {
      SumBound(b[2..]);
    }
  }

  /** Stored in memory, the result of `checksum` is the RFC 1071 checksum of the bytes. */
  lemma ChecksumIsRfc1071(b: seq<byte>)
    requires |b| <= 0xFFFF
    ensures Sum(b, 0) == Swap(Rfc1071(b))
  {
    SumBound(b);
    SumIsOnesSum(b);
    SwapComplement(OnesSum(b));
  }

  // ----- the TCP checksum -----

  function Little32(b: seq<byte>): u32
    requires |b| == 4
  {
    Word(b[0], b[1]) + 0x1_0000 * Word(b[2], b[3])
  }

  /** The pseudo-header of RFC 793, section 3.1. */
  function PseudoHeader(src: seq<byte>, dst: seq<byte>, proto: byte, len: u16): (h: seq<byte>)
    requires |src| == |dst| == 4
    ensures |h| == 12
  {
    src + dst + [0, proto, len / 0x100, len % 0x100]
  }

  /** What the 32-bit accumulator of `tcp_udp_checksum` adds up, without its wrap-around. The addresses are
      in network byte order. */
  function Accumulated(src: seq<byte>, dst: seq<byte>, proto: byte, data: seq<byte>): nat
    requires |src| == |dst| == 4 && |data| <= 0xFFFF
  {
    Little32(src) + Little32(dst) + Swap(proto) + Swap(|data|) + Sum16(data)
  }

  function Result(src: seq<byte>, dst: seq<byte>, proto: byte, data: seq<byte>): u16
    requires |src| == |dst| == 4 && |data| <= 0xFFFF
  {
    Sum(data, U32(Little32(src) + Little32(dst) + Swap(proto) + Swap(|data|)))
  }

  lemma ResultFolds(src: seq<byte>, dst: seq<byte>, proto: byte, data: seq<byte>)
    requires |src| == |dst| == 4 && |data| <= 0xFFFF
    ensures Result(src, dst, proto, data) == ONES - Fold(U32(Accumulated(src, dst, proto, data)))
  {
    hide Little32, Swap, Sum16, Fold, U32;
    U32Adds(Little32(src) + Little32(dst) + Swap(proto) + Swap(|data|), Sum16(data));
  }

  /** `tcp_udp_checksum`. */
  method TcpUdpChecksum(src: seq<byte>, dst: seq<byte>, proto: byte, data: seq<byte>) returns (r: u16)
    requires |src| == |dst| == 4 && |data| <= 0xFFFF
    ensures r == Result(src, dst, proto, data)
    ensures r == Swap(Rfc1071(PseudoHeader(src, dst, proto, |data|) + data)) <==>
            Accumulated(src, dst, proto, data) < MOD32
  {
    hide Little32, Swap, Sum16, Rfc1071, Sum, Accumulated, PseudoHeader;
    TcpChecksumIsRfc1071(src, dst, proto, data);
    var sum: u32 := 0;
    sum := U32(sum + Little32(src));
    sum := U32(sum + Little32(dst));
    sum := U32(sum + Swap(proto));
    sum := U32(sum + Swap(|data|));
    r := ComputeChecksum(data, |data|, sum);
    assert data[..|data|] == data;
  }

  lemma SumAppend(p: seq<byte>, q: seq<byte>)
    requires |p| % 2 == 0
    ensures Sum16(p + q) == Sum16(p) + Sum16(q)
  {
    if p == [] {
      assert p + q == q;
    } else {
      assert (p + q)[2..] == p[2..] + q;
      SumAppend(p[2..], q);
    }
  }

  lemma PseudoSum(src: seq<byte>, dst: seq<byte>, proto: byte, len: u16)
    requires |src| == |dst| == 4
    ensures Sum16(PseudoHeader(src, dst, proto, len)) ==
            Word(src[0], src[1]) + Word(src[2], src[3]) + Word(dst[0], dst[1]) + Word(dst[2], dst[3])
            + Swap(proto) + Swap(len)
  {
    hide Sum16, Word;
    var tail := [0, proto, len / 0x100, len % 0x100];
    SumAppend(src + dst, tail);
    SumAppend(src, dst);
    FourBytes(src);
    FourBytes(dst);
    FourBytes(tail);
    TailWords(proto, len);
  }

  lemma TailWords(proto: byte, len: u16)
    ensures Word(0, proto) == Swap(proto) && Word(len / 0x100, len % 0x100) == Swap(len)
  {
  }

  lemma FourBytes(b: seq<byte>)
    requires |b| == 4
    ensures Sum16(b) == Word(b[0], b[1]) + Word(b[2], b[3])
  {
    assert Sum16(b[2..]) == Word(b[2], b[3]) + Sum16(b[2..][2..]);
    assert b[2..][2..] == [];
  }

  /** Every wrap of the accumulator loses one from the ones' complement sum. */
  lemma WrapLosesOne(total: nat)
    requires total < 3 * MOD32
    ensures Fold(U32(total)) == Fold(total) <==> total < MOD32
  {
    var k, t := total / MOD32, total % MOD32;
    assert MOD32 == 1 + ONES * 0x1_0001;
    assert total == t + k + ONES * (0x1_0001 * k);
    ModShift(t + k, 0x1_0001 * k);
    FoldEqual(t, total);
    if k > 0 {
      assert (t + k) % ONES != t % ONES;
    }
  }

  /** The TCP checksum is right exactly when the 32-bit accumulator does not overflow. */
  lemma TcpChecksumIsRfc1071(src: seq<byte>, dst: seq<byte>, proto: byte, data: seq<byte>)
    requires |src| == |dst| == 4 && |data| <= 0xFFFF
    ensures Result(src, dst, proto, data)
            == Swap(Rfc1071(PseudoHeader(src, dst, proto, |data|) + data))
            <==> Accumulated(src, dst, proto, data) < MOD32
  {
    hide Sum16, Fold, Result, OnesSum, PseudoHeader, Swap, Word;
    var pseudo, total := PseudoHeader(src, dst, proto, |data|), Accumulated(src, dst, proto, data);
    ResultFolds(src, dst, proto, data);
    AccumulatedFolds(src, dst, proto, data);
    SumBound(data);
    WrapLosesOne(total);
    SumIsOnesSum(pseudo + data);
    SwapComplement(OnesSum(pseudo + data));
  }

  lemma AccumulatedFolds(src: seq<byte>, dst: seq<byte>, proto: byte, data: seq<byte>)
    requires |src| == |dst| == 4 && |data| <= 0xFFFF
    ensures Fold(Accumulated(src, dst, proto, data)) == Fold(Sum16(PseudoHeader(src, dst, proto, |data|) + data))
  {
    hide Swap, Sum16, Word, PseudoHeader;
    var pseudo := PseudoHeader(src, dst, proto, |data|);
    SumAppend(pseudo, data);
    PseudoSum(src, dst, proto, |data|);
    var hi := Word(src[2], src[3]) + Word(dst[2], dst[3]);
    assert Accumulated(src, dst, proto, data) == Sum16(pseudo + data) + ONES * hi;
    if Sum16(pseudo + data) > 0 {
      FoldShift(Sum16(pseudo + data), hi);
    }
  }

  /** Hosts whose last address bytes add up to 256 or more never exchange a segment with a right checksum. */
  lemma HighAddressesOverflow(src: seq<byte>, dst: seq<byte>, proto: byte, data: seq<byte>)
    requires |src| == |dst| == 4 && |data| <= 0xFFFF && src[3] as int + dst[3] as int >= 0x100
    ensures Result(src, dst, proto, data)
            != Swap(Rfc1071(PseudoHeader(src, dst, proto, |data|) + data))
  {
    TcpChecksumIsRfc1071(src, dst, proto, data);
  }
}
