/** src/ip_output.c and src/ip_input.c: the header that is filled in place before a packet leaves, and the
    checks that an arriving header must pass. */
module IpHeader {
  import opened Words
  import opened Checksum

  const HDR_LEN := 20
  const DONT_FRAGMENT: u16 := 0x4000

  function HeaderLength(h: seq<byte>): nat
    requires h != []
  {
    h[0] % 16 * 4
  }

  /** The header bytes that a checksum covers are there. */
  predicate HasHeader(h: seq<byte>) {
    h != [] && 5 <= h[0] % 16 && HeaderLength(h) <= |h|
  }

  function Stored(h: seq<byte>, c: u16): seq<byte>
    requires |h| >= HDR_LEN
  {
    h[10 := c % 0x100][11 := c / 0x100]
  }

  function WithChecksum(h: seq<byte>): seq<byte>
    requires HasHeader(h)
  {
    Stored(h, Sum(h[..HeaderLength(h)], 0))
  }

  /** `ip_send_check`. */
  method SendCheck(h: array<byte>)
    requires HasHeader(h[..])
    modifies h
    ensures h[..] == WithChecksum(old(h[..]))
  {
    var ihl := h[0] % 16;
    var csum := ComputeChecksum(h[..], ihl * 4, 0);
    h[10], h[11] := csum % 0x100, csum / 0x100;
  }

  /** What `ip_rcv` requires of a header before it looks at the protocol. */
  predicate Accepts(h: seq<byte>)
    requires h != [] && HeaderLength(h) <= |h| && |h| >= HDR_LEN
  {
    h[0] / 16 == 4 && h[0] % 16 >= 5 && h[8] != 0 && Sum(h[..HeaderLength(h)], 0) == 0
  }

  /** The checks of `ip_rcv`, in its order. */
  method Receive(h: array<byte>) returns (ok: bool)
    requires h.Length >= HDR_LEN && HeaderLength(h[..]) <= h.Length
    ensures ok == Accepts(h[..])
  {
    var version, ihl := h[0] / 16, h[0] % 16;
    if version != 4 || ihl < 5 || h[8] == 0 {
      return false;
    }
    var csum := ComputeChecksum(h[..], ihl * 4, 0);
    return csum == 0;
  }

  // ----- a filled header verifies -----

  lemma {:induction false} SumUpdate(b: seq<byte>, i: nat, lo: byte, hi: byte)
    requires i % 2 == 0 && i + 1 < |b|
    ensures Sum16(b[i := lo][i + 1 := hi]) == Sum16(b) - Word(b[i], b[i + 1]) + Word(lo, hi)
  {
    var c := b[i := lo][i + 1 := hi];
    if i == 0 {
      assert c[2..] == b[2..];
    } else {
      assert c[2..] == b[2..][i - 2 := lo][i - 1 := hi];
      SumUpdate(b[2..], i - 2, lo, hi);
      hide Word;
    }
  }

  lemma Verifies(b: seq<byte>)
    requires |b| <= 60
    ensures Sum(b, 0) == 0 <==> Sum16(b) > 0 && Sum16(b) % ONES == 0
  {
    SumBound(b);
  }

  /** Whatever the header holds, filling in its checksum makes it verify. */
  lemma FilledHeaderVerifies(h: seq<byte>)
    requires HasHeader(h) && h[10] == h[11] == 0
    ensures var t := WithChecksum(h); HeaderLength(t) == HeaderLength(h) && Sum(t[..HeaderLength(t)], 0) == 0
  {
    var n := HeaderLength(h);
    var b: seq<byte>, c := h[..n], Sum(h[..n], 0);
    var lo: byte, hi: byte := c % 0x100, c / 0x100;
    assert Stored(h, c)[..n] == b[10 := lo][11 := hi];
    SumUpdate(b, 10, lo, hi);
    SumBound(b);
    FilledSum(Sum16(b));
    Verifies(Stored(h, c)[..n]);
    hide Sum16, Word;
  }

  lemma FilledSum(x: nat)
    ensures (x + (ONES - Fold(x))) % ONES == 0 && x + (ONES - Fold(x)) > 0
  {
  }

  /** A verified header in which one word is damaged still verifies only if 0 became 0xFFFF or the reverse. */
  lemma DamagedWordIsDetected(b: seq<byte>, i: nat, lo: byte, hi: byte)
    requires |b| <= 60 && b != [] && b[0] > 0 && Sum(b, 0) == 0
    requires 0 < i && i % 2 == 0 && i + 1 < |b| && (lo != b[i] || hi != b[i + 1])
    ensures Sum(b[i := lo][i + 1 := hi], 0) == 0 <==> {Word(lo, hi), Word(b[i], b[i + 1])} == {0, ONES}
  {
    var c, x, y := b[i := lo][i + 1 := hi], Word(b[i], b[i + 1]), Word(lo, hi);
    SumUpdate(b, i, lo, hi);
    Verifies(b);
    Verifies(c);
    assert Sum16(c) > 0;
    DifferentWords(lo, hi, b[i], b[i + 1]);
    hide Sum16, Word;
    CongruentWords(Sum16(b), x, y);
    assert {y, x} == {0, ONES} <==> (x == 0 && y == ONES) || (x == ONES && y == 0) by {
      if {y, x} == {0, ONES} {
        assert x in {y, x} && y in {y, x} && 0 in {y, x} && ONES in {y, x};
      }
    }
  }

  lemma DifferentWords(lo: byte, hi: byte, lo2: byte, hi2: byte)
    requires lo != lo2 || hi != hi2
    ensures Word(lo, hi) != Word(lo2, hi2)
  {
  }

  lemma CongruentWords(s: nat, x: u16, y: u16)
    requires s % ONES == 0 && x != y
    ensures (s - x + y) % ONES == 0 <==> (x == 0 && y == ONES) || (x == ONES && y == 0)
  {
  }

  // ----- from sender to receiver -----

  function Big16(x: u16): seq<byte> {
    [x / 0x100, x % 0x100]
  }

  function Big32(x: u32): seq<byte> {
    Big16(x / 0x1_0000) + Big16(x % 0x1_0000)
  }

  function Read16(h: seq<byte>, i: nat): u16
    requires i + 1 < |h|
  {
    Word(h[i + 1], h[i])
  }

  function Read32(h: seq<byte>, i: nat): u32
    requires i + 3 < |h|
  {
    0x1_0000 * Read16(h, i) + Read16(h, i + 2)
  }

  /** The header of `ip_output` before its checksum. */
  function Header(len: u16, id: u16, proto: byte, src: u32, dst: u32): (h: seq<byte>)
    ensures |h| == HDR_LEN
  {
    Front(len, id, proto) + Big32(src) + Big32(dst)
  }

  /** Version and length, type of service, total length, identification, don't-fragment, time to live,
      protocol, and room for the checksum. */
  function Front(len: u16, id: u16, proto: byte): (h: seq<byte>)
    ensures |h| == 12
  {
    [0x45, 0, len / 0x100, len % 0x100, id / 0x100, id % 0x100, DONT_FRAGMENT / 0x100, DONT_FRAGMENT % 0x100,
     64, proto, 0, 0]
  }

  /** `ip_output`: fills the first 20 bytes of `h`; `len` is the length of the buffer after the push. */
  method FillHeader(h: array<byte>, len: u32, id: u16, proto: byte, src: u32, dst: u32)
    requires h.Length >= HDR_LEN
    modifies h
    ensures h[..HDR_LEN] == WithChecksum(Header(len % 0x1_0000, id, proto, src, dst))
    ensures h[HDR_LEN..] == old(h[HDR_LEN..])
  {
    PutFields(h, len, id, proto, src, dst);
    PrefixChecksum(h[..]);
    assert h[..][..HDR_LEN] == h[..HDR_LEN] && h[..][HDR_LEN..] == h[HDR_LEN..];
    SendCheck(h);
    hide WithChecksum, Header;
    assert h[..][..HDR_LEN] == h[..HDR_LEN] && h[..][HDR_LEN..] == h[HDR_LEN..];
  }

  method PutFields(h: array<byte>, len: u32, id: u16, proto: byte, src: u32, dst: u32)
    requires h.Length >= HDR_LEN
    modifies h
    ensures h[..HDR_LEN] == Header(len % 0x1_0000, id, proto, src, dst)
    ensures h[HDR_LEN..] == old(h[HDR_LEN..])
  {
    PutFront(h, len, id, proto);
    ghost var front, rest := h[..12], h[HDR_LEN..];
    hide Front, Big32;
    PutAddress(h, 12, src);
    assert h[..12] == front;
    ghost var addr := h[12..16];
    PutAddress(h, 16, dst);
    assert h[..12] == front && h[12..16] == addr && h[HDR_LEN..] == rest;
    assert h[..HDR_LEN] == h[..12] + h[12..16] + h[16..20];
  }

  method PutFront(h: array<byte>, len: u32, id: u16, proto: byte)
    requires h.Length >= HDR_LEN
    modifies h
    ensures h[..12] == Front(len % 0x1_0000, id, proto) && h[HDR_LEN..] == old(h[HDR_LEN..])
  {
    h[0], h[1] := 0x45, 0;
    h[2], h[3] := len / 0x100 % 0x100, len % 0x100;
    h[4], h[5] := id / 0x100, id % 0x100;
    h[6], h[7] := DONT_FRAGMENT / 0x100, DONT_FRAGMENT % 0x100;
    h[8], h[9], h[10], h[11] := 64, proto, 0, 0;
  }

  /** `htonl` into the header. */
  method PutAddress(h: array<byte>, i: nat, x: u32)
    requires i + 4 <= h.Length
    modifies h
    ensures h[i..i + 4] == Big32(x)
    ensures forall k :: 0 <= k < h.Length && !(i <= k < i + 4) ==> h[k] == old(h[k])
  {
    h[i], h[i + 1] := x / 0x100_0000, x / 0x1_0000 % 0x100;
    h[i + 2], h[i + 3] := x / 0x100 % 0x100, x % 0x100;
  }

  lemma PrefixChecksum(h: seq<byte>)
    requires |h| >= HDR_LEN && h[0] == 0x45
    ensures WithChecksum(h)[..HDR_LEN] == WithChecksum(h[..HDR_LEN]) && WithChecksum(h)[HDR_LEN..] == h[HDR_LEN..]
  {
    assert h[..HDR_LEN][..HDR_LEN] == h[..HDR_LEN];
  }

  /** Every header that the stack sends is accepted by a stack that receives it undamaged, which reads back
      the length, the identification, the protocol and the addresses, version 4 with 20 bytes, no fragmenting, and a
      time to live of 64. */
  lemma SentHeaderIsAccepted(len: u16, id: u16, proto: byte, src: u32, dst: u32)
    ensures var h := WithChecksum(Header(len, id, proto, src, dst));
      && Accepts(h) && Read16(h, 2) == len && h[9] == proto && Read32(h, 12) == src && Read32(h, 16) == dst
      && h[0] == 0x45 && h[1] == 0 && Read16(h, 4) == id && Read16(h, 6) == 0x4000 && h[8] == 64
  {
    var h := Header(len, id, proto, src, dst);
    FilledHeaderVerifies(h);
    hide Sum;
  }
}
