/**
 The MD5 message digest of RFC 1321, as mathematics: padding (3.1), length (3.2), initial
 state (3.3), the table-driven block step (3.4) and the output encoding (3.5).  Nothing here
 mentions buffers, counters or chunks.
 */
module Md5Spec {
  import opened Bytes

  datatype State = State(a: Word, b: Word, c: Word, d: Word)

  const INITIAL_STATE := State(0x67452301, 0xefcdab89, 0x98badcfe, 0x10325476)

  function DecodeWord(s: seq<byte>): Word
    requires |s| == 4
  {
    (s[0] as Word) | ((s[1] as Word) << 8) | ((s[2] as Word) << 16) | ((s[3] as Word) << 24)
  }

  function EncodeWord(w: Word): (s: seq<byte>)
    ensures |s| == 4
  {
    [(w & 0xff) as byte, ((w >> 8) & 0xff) as byte, ((w >> 16) & 0xff) as byte, ((w >> 24) & 0xff) as byte]
  }

  /** Low-order byte first, word after word. */
  function DecodeWords(s: seq<byte>): (ws: seq<Word>)
    requires |s| % 4 == 0
    ensures |ws| == |s| / 4
  {
    if s == [] then [] else DecodeWords(s[..|s| - 4]) + [DecodeWord(s[|s| - 4..])]
  }

  function EncodeWords(ws: seq<Word>): (s: seq<byte>)
    ensures |s| == 4 * |ws|
  {
    if ws == [] then [] else EncodeWords(ws[..|ws| - 1]) + EncodeWord(ws[|ws| - 1])
  }

  lemma DecodeSnoc(front: seq<byte>, last: seq<byte>)
    requires |front| % 4 == 0 && |last| == 4
    ensures DecodeWords(front + last) == DecodeWords(front) + [DecodeWord(last)]
  {
    hide DecodeWord;
    var s := front + last;
    assert s[..|s| - 4] == front && s[|s| - 4..] == last;
  }

  /** Word `i` is made of bytes 4i to 4i + 3. */
  lemma {:induction false} DecodeWordsAt(s: seq<byte>, i: nat)
    requires |s| % 4 == 0 && 4 * i < |s|
    ensures DecodeWords(s)[i] == DecodeWord([s[4 * i], s[4 * i + 1], s[4 * i + 2], s[4 * i + 3]])
  {
    hide DecodeWord;
    var front, last := s[..|s| - 4], s[|s| - 4..];
    if 4 * i == |front| {
      assert last == [s[4 * i], s[4 * i + 1], s[4 * i + 2], s[4 * i + 3]];
    } else {
      DecodeWordsAt(front, i);
    }
  }

  lemma {:induction false} DecodeInvertsEncode(ws: seq<Word>)
    ensures DecodeWords(EncodeWords(ws)) == ws
  {
    hide EncodeWord, DecodeWord, DecodeWords;
    if ws == [] {
      DecodeNone();
    } else {
      var front, w := ws[..|ws| - 1], ws[|ws| - 1];
      DecodeInvertsEncode(front);
      DecodeSnoc(EncodeWords(front), EncodeWord(w));
      WordDecodeInvertsEncode(w);
      assert ws == front + [w];
    }
  }

  lemma DecodeNone()
    ensures DecodeWords([]) == []
  {
  }

  lemma {:induction false} EncodeInvertsDecode(s: seq<byte>)
    requires |s| % 4 == 0
    ensures EncodeWords(DecodeWords(s)) == s
  {
    hide EncodeWord, DecodeWord;
    if s == [] {
    } else {
      var front, last := s[..|s| - 4], s[|s| - 4..];
      EncodeInvertsDecode(front);
      WordEncodeInvertsDecode(last);
      var ws := DecodeWords(s);
      assert ws[..|ws| - 1] == DecodeWords(front);
      assert s == front + last;
    }
  }

  lemma WordDecodeInvertsEncode(w: Word)
    ensures DecodeWord(EncodeWord(w)) == w
  {
  }

  lemma WordEncodeInvertsDecode(s: seq<byte>)
    requires |s| == 4
    ensures EncodeWord(DecodeWord(s)) == s
  {
  }

  // The four auxiliary functions of section 3.4.

  /** Bit by bit, y where x has ones and z elsewhere. */
  function F(x: Word, y: Word, z: Word): (r: Word)
    ensures x & r == x & y && !x & r == !x & z
  {
    (x & y) | (!x & z)
  }

  /** Bit by bit, x where z has ones and y elsewhere. */
  function G(x: Word, y: Word, z: Word): (r: Word)
    ensures z & r == z & x && !z & r == !z & y
  {
    (x & z) | (y & !z)
  }

  /** The parity of the three bits. */
  function H(x: Word, y: Word, z: Word): (r: Word)
    ensures r ^ x ^ y == z
  {
    x ^ y ^ z
  }

  /** y, flipped except exactly where z has ones and x has none. */
  function I(x: Word, y: Word, z: Word): (r: Word)
    ensures !(r ^ y) == z & !x
  {
    y ^ (x | !z)
  }

  function RotateLeft(x: Word, n: Word): Word
    requires 0 < n < 32
  {
    (x << n) | (x >> (32 - n))
  }

  function RotateRight(x: Word, n: Word): Word
    requires 0 < n < 32
  {
    (x >> n) | (x << (32 - n))
  }

  /** The auxiliary function of the round that operation `i` (0 to 63) belongs to. */
  function Auxiliary(i: nat, x: Word, y: Word, z: Word): Word {
    if i < 16 then F(x, y, z) else if i < 32 then G(x, y, z) else if i < 48 then H(x, y, z) else I(x, y, z)
  }

  /** Which word of the block operation `i` adds. */
  function Index(i: nat): (k: nat)
    ensures k < 16
  {
    if i < 16 then i
    else if i < 32 then (5 * i + 1) % 16
    else if i < 48 then (3 * i + 5) % 16
    else (7 * i) % 16
  }

  /** How far operation `i` rotates: four amounts in each round. */
  function Shift(i: nat): (s: Word)
    ensures 0 < s < 32
  {
    var k := i % 4;
    if i < 16 then (if k == 0 then 7 else if k == 1 then 12 else if k == 2 then 17 else 22)
    else if i < 32 then (if k == 0 then 5 else if k == 1 then 9 else if k == 2 then 14 else 20)
    else if i < 48 then (if k == 0 then 4 else if k == 1 then 11 else if k == 2 then 16 else 23)
    else (if k == 0 then 6 else if k == 1 then 10 else if k == 2 then 15 else 21)
  }

  /** The table T: entry `i` is the integer part of 2^32 times abs(sin(i + 1)). */
  function Sine(i: nat): Word {
    match i
    case 0 => 0xd76aa478
    case 1 => 0xe8c7b756
    case 2 => 0x242070db
    case 3 => 0xc1bdceee
    case 4 => 0xf57c0faf
    case 5 => 0x4787c62a
    case 6 => 0xa8304613
    case 7 => 0xfd469501
    case 8 => 0x698098d8
    case 9 => 0x8b44f7af
    case 10 => 0xffff5bb1
    case 11 => 0x895cd7be
    case 12 => 0x6b901122
    case 13 => 0xfd987193
    case 14 => 0xa679438e
    case 15 => 0x49b40821
    case 16 => 0xf61e2562
    case 17 => 0xc040b340
    case 18 => 0x265e5a51
    case 19 => 0xe9b6c7aa
    case 20 => 0xd62f105d
    case 21 => 0x02441453
    case 22 => 0xd8a1e681
    case 23 => 0xe7d3fbc8
    case 24 => 0x21e1cde6
    case 25 => 0xc33707d6
    case 26 => 0xf4d50d87
    case 27 => 0x455a14ed
    case 28 => 0xa9e3e905
    case 29 => 0xfcefa3f8
    case 30 => 0x676f02d9
    case 31 => 0x8d2a4c8a
    case 32 => 0xfffa3942
    case 33 => 0x8771f681
    case 34 => 0x6d9d6122
    case 35 => 0xfde5380c
    case 36 => 0xa4beea44
    case 37 => 0x4bdecfa9
    case 38 => 0xf6bb4b60
    case 39 => 0xbebfbc70
    case 40 => 0x289b7ec6
    case 41 => 0xeaa127fa
    case 42 => 0xd4ef3085
    case 43 => 0x04881d05
    case 44 => 0xd9d4d039
    case 45 => 0xe6db99e5
    case 46 => 0x1fa27cf8
    case 47 => 0xc4ac5665
    case 48 => 0xf4292244
    case 49 => 0x432aff97
    case 50 => 0xab9423a7
    case 51 => 0xfc93a039
    case 52 => 0x655b59c3
    case 53 => 0x8f0ccc92
    case 54 => 0xffeff47d
    case 55 => 0x85845dd1
    case 56 => 0x6fa87e4f
    case 57 => 0xfe2ce6e0
    case 58 => 0xa3014314
    case 59 => 0x4e0811a1
    case 60 => 0xf7537e82
    case 61 => 0xbd3af235
    case 62 => 0x2ad7d2bb
    case _ => 0xeb86d391
  }

  /** Addition and subtraction modulo 2^32. */
  function Plus(x: Word, y: Word): Word { x + y }

  function Minus(x: Word, y: Word): Word { x - y }

  function Addend(f: Word, x: Word, t: Word): Word {
    f + x + t
  }

  /** One operation: b + ((a + f + x + t) <<< s). */
  function Operation(a: Word, b: Word, f: Word, x: Word, t: Word, s: Word): Word
    requires 0 < s < 32
  {
    Plus(b, RotateLeft(Plus(a, Addend(f, x, t)), s))
  }

  /** Operation `i`, with X[k] and T[i] from the tables, and then the rotation of the four
      registers that makes the next operation update d. */
  function Step(x: seq<Word>, s: State, i: nat): State
    requires |x| == 16
  {
    State(s.d, Operation(s.a, s.b, Auxiliary(i, s.b, s.c, s.d), x[Index(i)], Sine(i), Shift(i)), s.b, s.c)
  }

  /** `n` operations, from operation `i` on. */
  function Steps(x: seq<Word>, s: State, i: nat, n: nat): State
    requires |x| == 16
    decreases n
  {
    if n == 0 then s else Steps(x, Step(x, s, i), i + 1, n - 1)
  }

  /** Section 3.4: the 64 operations on one block, then the feed-forward. */
  function Compress(s: State, block: seq<byte>): State
    requires |block| == 64
  {
    var t := Steps(DecodeWords(block), s, 0, 64);
    State(Plus(s.a, t.a), Plus(s.b, t.b), Plus(s.c, t.c), Plus(s.d, t.d))
  }

  /** The state after the whole 64-byte blocks of `m`; a shorter tail is ignored. */
  function Absorb(s: State, m: seq<byte>): State
    decreases |m|
  {
    if |m| < 64 then s else Absorb(Compress(s, m[..64]), m[64..])
  }

  /** Section 3.1: between 1 and 64 bytes, as many as bring the length to 56 modulo 64. */
  function PadLength(n: nat): (k: nat)
    ensures 1 <= k <= 64
    ensures (n + k) % 64 == 56
  {
    1 + (119 - n % 64) % 64
  }

  function Padding(n: nat): (p: seq<byte>)
    ensures |p| == PadLength(n)
  {
    [0x80] + Zeros(PadLength(n) - 1)
  }

  /** Section 3.2: the length in bits modulo 2^64, as two words, low-order word first. */
  function LengthBytes(n: nat): (s: seq<byte>)
    ensures |s| == 8
  {
    var bits := 8 * n % TWO_TO_THE_64;
    LittleEndian(bits % TWO_TO_THE_32) + LittleEndian(bits / TWO_TO_THE_32)
  }

  function Pad(m: seq<byte>): (p: seq<byte>)
    ensures |p| == |m| + PadLength(|m|) + 8
  {
    m + Padding(|m|) + LengthBytes(|m|)
  }

  /** The padded message is a whole number of blocks, at least one, and begins with the message. */
  lemma PadFillsBlocks(m: seq<byte>)
    ensures |Pad(m)| % 64 == 0 && |Pad(m)| >= 64
    ensures m <= Pad(m)
  {
    hide LengthBytes, Padding, PadLength;
    EightMore(|m| + PadLength(|m|));
  }

  lemma EightMore(n: nat)
    requires n % 64 == 56
    ensures (n + 8) % 64 == 0 && n + 8 >= 64
  {
  }

  /** Section 3.5: A, B, C, D, low-order byte of A first. */
  function Output(s: State): (d: seq<byte>)
    ensures |d| == 16
  {
    EncodeWords([s.a, s.b, s.c, s.d])
  }

  function Digest(m: seq<byte>): (d: seq<byte>)
    ensures |d| == 16
  {
    Output(Absorb(INITIAL_STATE, Pad(m)))
  }

  /** Absorbing is a fold: whole blocks may be absorbed now and the rest later. */
  lemma {:induction false} AbsorbConcat(s: State, m: seq<byte>, rest: seq<byte>)
    requires |m| % 64 == 0
    ensures Absorb(s, m + rest) == Absorb(Absorb(s, m), rest)
    decreases |m|
  {
    hide Compress;
    if m == [] {
      assert m + rest == rest;
    } else {
      assert (m + rest)[..64] == m[..64];
      assert (m + rest)[64..] == m[64..] + rest;
      AbsorbConcat(Compress(s, m[..64]), m[64..], rest);
    }
  }

  lemma AbsorbBlock(s: State, m: seq<byte>, block: seq<byte>)
    requires |m| % 64 == 0 && |block| == 64
    ensures Absorb(s, m + block) == Compress(Absorb(s, m), block)
  {
    hide Compress;
    AbsorbConcat(s, m, block);
    assert block[..64] == block;
    assert |block[64..]| == 0;
  }

  /** Padding loses nothing: two messages with the same padded form are equal.  No bound on
      their length is needed, although the length is only kept modulo 2^64. */
  lemma PadInjective(m: seq<byte>, m': seq<byte>)
    requires Pad(m) == Pad(m')
    ensures m == m'
  {
    var n, n' := |m|, |m'|;
    var p := Pad(m);
    assert p[|p| - 8..] == LengthBytes(n);
    assert p[|p| - 8..] == LengthBytes(n');
    LengthBytesDetermine(n, n');
    SameLength(n, n');
    assert m == p[..n];
    assert m' == p[..n'];
  }

  lemma LengthBytesDetermine(n: nat, n': nat)
    requires LengthBytes(n) == LengthBytes(n')
    ensures 8 * n % TWO_TO_THE_64 == 8 * n' % TWO_TO_THE_64
  {
    hide LittleEndian, FromLittleEndian;
    var bits, bits' := 8 * n % TWO_TO_THE_64, 8 * n' % TWO_TO_THE_64;
    var lo, hi := bits % TWO_TO_THE_32, bits / TWO_TO_THE_32;
    var lo', hi' := bits' % TWO_TO_THE_32, bits' / TWO_TO_THE_32;
    assert LittleEndian(lo) == LengthBytes(n)[..4] && LittleEndian(hi) == LengthBytes(n)[4..];
    assert LittleEndian(lo') == LengthBytes(n')[..4] && LittleEndian(hi') == LengthBytes(n')[4..];
    WordRoundTrip(lo);
    WordRoundTrip(hi);
    WordRoundTrip(lo');
    WordRoundTrip(hi');
  }

  lemma SameLength(n: nat, n': nat)
    requires 8 * n % TWO_TO_THE_64 == 8 * n' % TWO_TO_THE_64
    requires n + PadLength(n) == n' + PadLength(n')
    ensures n == n'
  {
    assert -64 < n - n' < 64;
    if n != n' {
      NoShortPeriod(if n > n' then n - n' else n' - n, Min(n, n'));
    }
  }

  lemma NoShortPeriod(k: nat, n: nat)
    requires 0 < k < 64
    ensures 8 * (n + k) % TWO_TO_THE_64 != 8 * n % TWO_TO_THE_64
  {
    var r, q := 8 * n % TWO_TO_THE_64, 8 * n / TWO_TO_THE_64;
    assert 8 * (n + k) == q * TWO_TO_THE_64 + r + 8 * k;
    if r + 8 * k < TWO_TO_THE_64 {
      ModOfSum(q, r + 8 * k);
    } else {
      ModOfSum(q + 1, r + 8 * k - TWO_TO_THE_64);
    }
  }

  lemma ModOfSum(q: nat, r: nat)
    requires r < TWO_TO_THE_64
    ensures (q * TWO_TO_THE_64 + r) % TWO_TO_THE_64 == r
  {
  }
}
