/**
 Bytes, unsigned words and the two integer encodings the program uses.

 A byte is a `bv8`.  An MD5 register is a 32-bit vector.  Every other `unsigned int` of the
 program (bit counters, block numbers, packet lengths) is a natural number below 2^32, with
 wrap-around written out.
 */
module Bytes {
  type byte = bv8
  type Word = bv32
  type uint2 = x: int | 0 <= x < 0x1_0000
  type uint4 = x: int | 0 <= x < 0x1_0000_0000

  const TWO_TO_THE_32: int := 0x1_0000_0000
  const TWO_TO_THE_64: int := 0x1_0000_0000_0000_0000

  datatype Result<+T> = Ok(value: T) | Err(message: string)
  datatype Option<+T> = None | Some(value: T)

  function Zeros(n: nat): (z: seq<byte>)
    ensures |z| == n
    ensures forall k :: 0 <= k < n ==> z[k] == 0
  {
    seq(n, _ => 0)
  }

  function Min(x: nat, y: nat): nat {
    if x < y then x else y
  }

  /** The four bytes of `n`, low-order byte first: the memory image of an `unsigned int`
      on a little-endian host. */
  function LittleEndian(n: uint4): (s: seq<byte>)
    ensures |s| == 4
  {
    [(n % 256) as byte, (n / 0x100 % 256) as byte, (n / 0x1_0000 % 256) as byte, (n / 0x100_0000) as byte]
  }

  function FromLittleEndian(s: seq<byte>): uint4
    requires |s| == 4
  {
    s[0] as int + 0x100 * (s[1] as int) + 0x1_0000 * (s[2] as int) + 0x100_0000 * (s[3] as int)
  }

  /** The four bytes of `n`, high-order byte first: network byte order. */
  function BigEndian(n: uint4): (s: seq<byte>)
    ensures |s| == 4
  {
    var s := LittleEndian(n);
    [s[3], s[2], s[1], s[0]]
  }

  function FromBigEndian(s: seq<byte>): uint4
    requires |s| == 4
  {
    FromLittleEndian([s[3], s[2], s[1], s[0]])
  }

  /** `htonl` on a little-endian host: the word whose memory image is `n` in network order.
      `ntohl` is the same function. */
  function Htonl(n: uint4): uint4 {
    FromLittleEndian(BigEndian(n))
  }

  /** `htons`, as the two bytes it leaves in memory. */
  function BigEndianShort(n: uint2): (s: seq<byte>)
    ensures |s| == 2
  {
    [(n / 256) as byte, (n % 256) as byte]
  }

  function FromBigEndianShort(s: seq<byte>): uint2
    requires |s| == 2
  {
    256 * (s[0] as int) + s[1] as int
  }

  lemma ByteSuccessor(b: byte)
    requires b < 0xff
    ensures (b + 1) as int == b as int + 1
  {
  }

  /** Every value below 256 is the value of some byte. */
  lemma ByteWithValue(n: nat) returns (b: byte)
    requires n < 256
    ensures b as int == n
  {
    if n == 0 {
      b := 0;
    } else {
      b := ByteWithValue(n - 1);
      ByteSuccessor(b);
      b := b + 1;
    }
  }

  lemma ByteOfInt(n: int)
    requires 0 <= n < 256
    ensures (n as byte) as int == n
  {
    var b := ByteWithValue(n);
    IntOfByte(b);
  }

  lemma IntOfByte(b: byte)
    ensures (b as int) as byte == b
  {
  }

  lemma Digits(n: uint4)
    ensures n == n % 256 + 0x100 * (n / 0x100 % 256) + 0x1_0000 * (n / 0x1_0000 % 256) + 0x100_0000 * (n / 0x100_0000)
    ensures n / 0x100_0000 < 256
  {
    assert n / 0x1_0000 == n / 0x100 / 256;
    assert n / 0x100_0000 == n / 0x1_0000 / 256;
  }

  lemma DigitsUnique(a: int, b: int, c: int, d: int, n: uint4)
    requires 0 <= a < 256 && 0 <= b < 256 && 0 <= c < 256 && 0 <= d < 256
    requires n == a + 0x100 * b + 0x1_0000 * c + 0x100_0000 * d
    ensures n % 256 == a && n / 0x100 % 256 == b && n / 0x1_0000 % 256 == c && n / 0x100_0000 == d
  {
    assert n / 0x100 == b + 0x100 * c + 0x1_0000 * d;
    assert n / 0x1_0000 == c + 0x100 * d;
  }

  /** Decoding undoes encoding, in both byte orders. */
  lemma WordRoundTrip(n: uint4)
    ensures FromLittleEndian(LittleEndian(n)) == n
    ensures FromBigEndian(BigEndian(n)) == n
  {
    Digits(n);
    ByteOfInt(n % 256);
    ByteOfInt(n / 0x100 % 256);
    ByteOfInt(n / 0x1_0000 % 256);
    ByteOfInt(n / 0x100_0000);
    var s := LittleEndian(n);
    assert [BigEndian(n)[3], BigEndian(n)[2], BigEndian(n)[1], BigEndian(n)[0]] == s;
  }

  /** Encoding undoes decoding. */
  lemma BytesRoundTrip(s: seq<byte>)
    requires |s| == 4
    ensures LittleEndian(FromLittleEndian(s)) == s
    ensures BigEndian(FromBigEndian(s)) == s
  {
    LittleEndianOfDecoded(s);
    LittleEndianOfDecoded([s[3], s[2], s[1], s[0]]);
  }

  lemma LittleEndianOfDecoded(s: seq<byte>)
    requires |s| == 4
    ensures LittleEndian(FromLittleEndian(s)) == s
  {
    DigitsUnique(s[0] as int, s[1] as int, s[2] as int, s[3] as int, FromLittleEndian(s));
    IntOfByte(s[0]);
    IntOfByte(s[1]);
    IntOfByte(s[2]);
    IntOfByte(s[3]);
  }

  /** Which byte is which: the first one in network order is the most significant. */
  lemma ByteOrder(n: uint4)
    ensures LittleEndian(n)[0] as int == n % 256 && LittleEndian(n)[3] as int == n / 0x100_0000
    ensures LittleEndian(n)[1] as int == n / 0x100 % 256 && LittleEndian(n)[2] as int == n / 0x1_0000 % 256
    ensures forall i :: 0 <= i < 4 ==> BigEndian(n)[i] == LittleEndian(n)[3 - i]
  {
    Digits(n);
    ByteOfInt(n % 256);
    ByteOfInt(n / 0x100 % 256);
    ByteOfInt(n / 0x1_0000 % 256);
    ByteOfInt(n / 0x100_0000);
  }

  lemma ShortOrder(n: uint2)
    ensures BigEndianShort(n)[0] as int == n / 256 && BigEndianShort(n)[1] as int == n % 256
  {
    ByteOfInt(n / 256);
    ByteOfInt(n % 256);
  }

  /** A word that went through `htonl` lies in memory in network order. */
  lemma HtonlInMemory(n: uint4)
    ensures LittleEndian(Htonl(n)) == BigEndian(n)
  {
    BytesRoundTrip(BigEndian(n));
  }

  /** `ntohl(htonl(n)) == n`. */
  lemma HtonlInvolution(n: uint4)
    ensures Htonl(Htonl(n)) == n
  {
    var b := BigEndian(n);
    BytesRoundTrip(b);
    var s := LittleEndian(n);
    assert LittleEndian(Htonl(n)) == b;
    assert BigEndian(Htonl(n)) == s;
    WordRoundTrip(n);
  }

  lemma ShortRoundTrip(n: uint2)
    ensures FromBigEndianShort(BigEndianShort(n)) == n
  {
    ByteOfInt(n / 256);
    ByteOfInt(n % 256);
  }
}
