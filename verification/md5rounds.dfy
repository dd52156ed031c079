/**
 The hand-unrolled block operation of `MD5::transform`: sixty-four calls that update one of the
 four registers in place, with the register arguments rotated from call to call, proved equal
 to the table-driven loop of section 3.4 of RFC 1321; and the inverse of that loop.
 */
module Md5Rounds {
  import opened Bytes
  import opened Md5Spec

  /** The new value of register `a`. */
  function FF(a: Word, b: Word, c: Word, d: Word, x: Word, s: Word, ac: Word): Word
    requires 0 < s < 32
  {
    var a := Plus(a, Addend(F(b, c, d), x, ac));
    Plus(RotateLeft(a, s), b)
  }

  /** The new value of register `a`. */
  function GG(a: Word, b: Word, c: Word, d: Word, x: Word, s: Word, ac: Word): Word
    requires 0 < s < 32
  {
    var a := Plus(a, Addend(G(b, c, d), x, ac));
    Plus(RotateLeft(a, s), b)
  }

  /** The new value of register `a`. */
  function HH(a: Word, b: Word, c: Word, d: Word, x: Word, s: Word, ac: Word): Word
    requires 0 < s < 32
  {
    var a := Plus(a, Addend(H(b, c, d), x, ac));
    Plus(RotateLeft(a, s), b)
  }

  /** The new value of register `a`. */
  function II(a: Word, b: Word, c: Word, d: Word, x: Word, s: Word, ac: Word): Word
    requires 0 < s < 32
  {
    var a := Plus(a, Addend(I(b, c, d), x, ac));
    Plus(RotateLeft(a, s), b)
  }

  lemma PlusCommutes(x: Word, y: Word)
    ensures Plus(x, y) == Plus(y, x)
  {
  }

  lemma FFIsOperation(a: Word, b: Word, c: Word, d: Word, x: Word, s: Word, t: Word)
    requires 0 < s < 32
    ensures FF(a, b, c, d, x, s, t) == Operation(a, b, F(b, c, d), x, t, s)
  {
    hide F, RotateLeft, Plus, Addend;
    PlusCommutes(RotateLeft(Plus(a, Addend(F(b, c, d), x, t)), s), b);
  }

  lemma FFIsStep(x: seq<Word>, a: Word, b: Word, c: Word, d: Word, i: nat)
    requires |x| == 16 && 0 <= i < 16
    ensures Step(x, State(a, b, c, d), i) == State(d, FF(a, b, c, d, x[Index(i)], Shift(i), Sine(i)), b, c)
  {
    hide Sine, Index, Shift, Operation, FF, F, G, H, I;
    FFIsOperation(a, b, c, d, x[Index(i)], Shift(i), Sine(i));
  }

  lemma GGIsOperation(a: Word, b: Word, c: Word, d: Word, x: Word, s: Word, t: Word)
    requires 0 < s < 32
    ensures GG(a, b, c, d, x, s, t) == Operation(a, b, G(b, c, d), x, t, s)
  {
    hide G, RotateLeft, Plus, Addend;
    PlusCommutes(RotateLeft(Plus(a, Addend(G(b, c, d), x, t)), s), b);
  }

  lemma GGIsStep(x: seq<Word>, a: Word, b: Word, c: Word, d: Word, i: nat)
    requires |x| == 16 && 16 <= i < 32
    ensures Step(x, State(a, b, c, d), i) == State(d, GG(a, b, c, d, x[Index(i)], Shift(i), Sine(i)), b, c)
  {
    hide Sine, Index, Shift, Operation, GG, F, G, H, I;
    GGIsOperation(a, b, c, d, x[Index(i)], Shift(i), Sine(i));
  }

  lemma HHIsOperation(a: Word, b: Word, c: Word, d: Word, x: Word, s: Word, t: Word)
    requires 0 < s < 32
    ensures HH(a, b, c, d, x, s, t) == Operation(a, b, H(b, c, d), x, t, s)
  {
    hide H, RotateLeft, Plus, Addend;
    PlusCommutes(RotateLeft(Plus(a, Addend(H(b, c, d), x, t)), s), b);
  }

  lemma HHIsStep(x: seq<Word>, a: Word, b: Word, c: Word, d: Word, i: nat)
    requires |x| == 16 && 32 <= i < 48
    ensures Step(x, State(a, b, c, d), i) == State(d, HH(a, b, c, d, x[Index(i)], Shift(i), Sine(i)), b, c)
  {
    hide Sine, Index, Shift, Operation, HH, F, G, H, I;
    HHIsOperation(a, b, c, d, x[Index(i)], Shift(i), Sine(i));
  }

  lemma IIIsOperation(a: Word, b: Word, c: Word, d: Word, x: Word, s: Word, t: Word)
    requires 0 < s < 32
    ensures II(a, b, c, d, x, s, t) == Operation(a, b, I(b, c, d), x, t, s)
  {
    hide I, RotateLeft, Plus, Addend;
    PlusCommutes(RotateLeft(Plus(a, Addend(I(b, c, d), x, t)), s), b);
  }

  lemma IIIsStep(x: seq<Word>, a: Word, b: Word, c: Word, d: Word, i: nat)
    requires |x| == 16 && 48 <= i < 64
    ensures Step(x, State(a, b, c, d), i) == State(d, II(a, b, c, d, x[Index(i)], Shift(i), Sine(i)), b, c)
  {
    hide Sine, Index, Shift, Operation, II, F, G, H, I;
    IIIsOperation(a, b, c, d, x[Index(i)], Shift(i), Sine(i));
  }

  lemma FFQuad(x: seq<Word>, a: Word, b: Word, c: Word, d: Word, i: nat)
    requires |x| == 16 && 0 <= i < 16 && i % 4 == 0
    ensures
      var a' := FF(a, b, c, d, x[Index(i)], 7, Sine(i));
      var d' := FF(d, a', b, c, x[Index(i + 1)], 12, Sine(i + 1));
      var c' := FF(c, d', a', b, x[Index(i + 2)], 17, Sine(i + 2));
      var b' := FF(b, c', d', a', x[Index(i + 3)], 22, Sine(i + 3));
      Steps(x, State(a, b, c, d), i, 4) == State(a', b', c', d')
  {
    hide FF, Step, Steps, Sine, Index;
    FFIsStep(x, a, b, c, d, i);
    var a' := FF(a, b, c, d, x[Index(i)], 7, Sine(i));
    FFIsStep(x, d, a', b, c, i + 1);
    var d' := FF(d, a', b, c, x[Index(i + 1)], 12, Sine(i + 1));
    FFIsStep(x, c, d', a', b, i + 2);
    var c' := FF(c, d', a', b, x[Index(i + 2)], 17, Sine(i + 2));
    FFIsStep(x, b, c', d', a', i + 3);
    FourSteps(x, State(a, b, c, d), i);
  }

  lemma GGQuad(x: seq<Word>, a: Word, b: Word, c: Word, d: Word, i: nat)
    requires |x| == 16 && 16 <= i < 32 && i % 4 == 0
    ensures
      var a' := GG(a, b, c, d, x[Index(i)], 5, Sine(i));
      var d' := GG(d, a', b, c, x[Index(i + 1)], 9, Sine(i + 1));
      var c' := GG(c, d', a', b, x[Index(i + 2)], 14, Sine(i + 2));
      var b' := GG(b, c', d', a', x[Index(i + 3)], 20, Sine(i + 3));
      Steps(x, State(a, b, c, d), i, 4) == State(a', b', c', d')
  {
    hide GG, Step, Steps, Sine, Index;
    GGIsStep(x, a, b, c, d, i);
    var a' := GG(a, b, c, d, x[Index(i)], 5, Sine(i));
    GGIsStep(x, d, a', b, c, i + 1);
    var d' := GG(d, a', b, c, x[Index(i + 1)], 9, Sine(i + 1));
    GGIsStep(x, c, d', a', b, i + 2);
    var c' := GG(c, d', a', b, x[Index(i + 2)], 14, Sine(i + 2));
    GGIsStep(x, b, c', d', a', i + 3);
    FourSteps(x, State(a, b, c, d), i);
  }

  lemma HHQuad(x: seq<Word>, a: Word, b: Word, c: Word, d: Word, i: nat)
    requires |x| == 16 && 32 <= i < 48 && i % 4 == 0
    ensures
      var a' := HH(a, b, c, d, x[Index(i)], 4, Sine(i));
      var d' := HH(d, a', b, c, x[Index(i + 1)], 11, Sine(i + 1));
      var c' := HH(c, d', a', b, x[Index(i + 2)], 16, Sine(i + 2));
      var b' := HH(b, c', d', a', x[Index(i + 3)], 23, Sine(i + 3));
      Steps(x, State(a, b, c, d), i, 4) == State(a', b', c', d')
  {
    hide HH, Step, Steps, Sine, Index;
    HHIsStep(x, a, b, c, d, i);
    var a' := HH(a, b, c, d, x[Index(i)], 4, Sine(i));
    HHIsStep(x, d, a', b, c, i + 1);
    var d' := HH(d, a', b, c, x[Index(i + 1)], 11, Sine(i + 1));
    HHIsStep(x, c, d', a', b, i + 2);
    var c' := HH(c, d', a', b, x[Index(i + 2)], 16, Sine(i + 2));
    HHIsStep(x, b, c', d', a', i + 3);
    FourSteps(x, State(a, b, c, d), i);
  }

  lemma IIQuad(x: seq<Word>, a: Word, b: Word, c: Word, d: Word, i: nat)
    requires |x| == 16 && 48 <= i < 64 && i % 4 == 0
    ensures
      var a' := II(a, b, c, d, x[Index(i)], 6, Sine(i));
      var d' := II(d, a', b, c, x[Index(i + 1)], 10, Sine(i + 1));
      var c' := II(c, d', a', b, x[Index(i + 2)], 15, Sine(i + 2));
      var b' := II(b, c', d', a', x[Index(i + 3)], 21, Sine(i + 3));
      Steps(x, State(a, b, c, d), i, 4) == State(a', b', c', d')
  {
    hide II, Step, Steps, Sine, Index;
    IIIsStep(x, a, b, c, d, i);
    var a' := II(a, b, c, d, x[Index(i)], 6, Sine(i));
    IIIsStep(x, d, a', b, c, i + 1);
    var d' := II(d, a', b, c, x[Index(i + 1)], 10, Sine(i + 1));
    IIIsStep(x, c, d', a', b, i + 2);
    var c' := II(c, d', a', b, x[Index(i + 2)], 15, Sine(i + 2));
    IIIsStep(x, b, c', d', a', i + 3);
    FourSteps(x, State(a, b, c, d), i);
  }

  // The table entries that each group of four calls spells out.

  lemma Table0()
    ensures Index(0) == 0 && Index(1) == 1 && Index(2) == 2 && Index(3) == 3
    ensures Sine(0) == 0xd76aa478 && Sine(1) == 0xe8c7b756 && Sine(2) == 0x242070db && Sine(3) == 0xc1bdceee
  {
  }

  lemma Table4()
    ensures Index(4) == 4 && Index(5) == 5 && Index(6) == 6 && Index(7) == 7
    ensures Sine(4) == 0xf57c0faf && Sine(5) == 0x4787c62a && Sine(6) == 0xa8304613 && Sine(7) == 0xfd469501
  {
  }

  lemma Table8()
    ensures Index(8) == 8 && Index(9) == 9 && Index(10) == 10 && Index(11) == 11
    ensures Sine(8) == 0x698098d8 && Sine(9) == 0x8b44f7af && Sine(10) == 0xffff5bb1 && Sine(11) == 0x895cd7be
  {
  }

  lemma Table12()
    ensures Index(12) == 12 && Index(13) == 13 && Index(14) == 14 && Index(15) == 15
    ensures Sine(12) == 0x6b901122 && Sine(13) == 0xfd987193 && Sine(14) == 0xa679438e && Sine(15) == 0x49b40821
  {
  }

  lemma Table16()
    ensures Index(16) == 1 && Index(17) == 6 && Index(18) == 11 && Index(19) == 0
    ensures Sine(16) == 0xf61e2562 && Sine(17) == 0xc040b340 && Sine(18) == 0x265e5a51 && Sine(19) == 0xe9b6c7aa
  {
  }

  lemma Table20()
    ensures Index(20) == 5 && Index(21) == 10 && Index(22) == 15 && Index(23) == 4
    ensures Sine(20) == 0xd62f105d && Sine(21) == 0x02441453 && Sine(22) == 0xd8a1e681 && Sine(23) == 0xe7d3fbc8
  {
  }

  lemma Table24()
    ensures Index(24) == 9 && Index(25) == 14 && Index(26) == 3 && Index(27) == 8
    ensures Sine(24) == 0x21e1cde6 && Sine(25) == 0xc33707d6 && Sine(26) == 0xf4d50d87 && Sine(27) == 0x455a14ed
  {
  }

  lemma Table28()
    ensures Index(28) == 13 && Index(29) == 2 && Index(30) == 7 && Index(31) == 12
    ensures Sine(28) == 0xa9e3e905 && Sine(29) == 0xfcefa3f8 && Sine(30) == 0x676f02d9 && Sine(31) == 0x8d2a4c8a
  {
  }

  lemma Table32()
    ensures Index(32) == 5 && Index(33) == 8 && Index(34) == 11 && Index(35) == 14
    ensures Sine(32) == 0xfffa3942 && Sine(33) == 0x8771f681 && Sine(34) == 0x6d9d6122 && Sine(35) == 0xfde5380c
  {
  }

  lemma Table36()
    ensures Index(36) == 1 && Index(37) == 4 && Index(38) == 7 && Index(39) == 10
    ensures Sine(36) == 0xa4beea44 && Sine(37) == 0x4bdecfa9 && Sine(38) == 0xf6bb4b60 && Sine(39) == 0xbebfbc70
  {
  }

  lemma Table40()
    ensures Index(40) == 13 && Index(41) == 0 && Index(42) == 3 && Index(43) == 6
    ensures Sine(40) == 0x289b7ec6 && Sine(41) == 0xeaa127fa && Sine(42) == 0xd4ef3085 && Sine(43) == 0x04881d05
  {
  }

  lemma Table44()
    ensures Index(44) == 9 && Index(45) == 12 && Index(46) == 15 && Index(47) == 2
    ensures Sine(44) == 0xd9d4d039 && Sine(45) == 0xe6db99e5 && Sine(46) == 0x1fa27cf8 && Sine(47) == 0xc4ac5665
  {
  }

  lemma Table48()
    ensures Index(48) == 0 && Index(49) == 7 && Index(50) == 14 && Index(51) == 5
    ensures Sine(48) == 0xf4292244 && Sine(49) == 0x432aff97 && Sine(50) == 0xab9423a7 && Sine(51) == 0xfc93a039
  {
  }

  lemma Table52()
    ensures Index(52) == 12 && Index(53) == 3 && Index(54) == 10 && Index(55) == 1
    ensures Sine(52) == 0x655b59c3 && Sine(53) == 0x8f0ccc92 && Sine(54) == 0xffeff47d && Sine(55) == 0x85845dd1
  {
  }

  lemma Table56()
    ensures Index(56) == 8 && Index(57) == 15 && Index(58) == 6 && Index(59) == 13
    ensures Sine(56) == 0x6fa87e4f && Sine(57) == 0xfe2ce6e0 && Sine(58) == 0xa3014314 && Sine(59) == 0x4e0811a1
  {
  }

  lemma Table60()
    ensures Index(60) == 4 && Index(61) == 11 && Index(62) == 2 && Index(63) == 9
    ensures Sine(60) == 0xf7537e82 && Sine(61) == 0xbd3af235 && Sine(62) == 0x2ad7d2bb && Sine(63) == 0xeb86d391
  {
  }

  lemma FourSteps(x: seq<Word>, s: State, i: nat)
    requires |x| == 16
    ensures Steps(x, s, i, 4) == Step(x, Step(x, Step(x, Step(x, s, i), i + 1), i + 2), i + 3)
  {
    hide Step;
  }

  lemma {:induction false} StepsCompose(x: seq<Word>, s: State, i: nat, n: nat, k: nat)
    requires |x| == 16
    ensures Steps(x, s, i, n + k) == Steps(x, Steps(x, s, i, n), i + n, k)
    decreases n
  {
    hide Step;
    if n == 0 {
    } else {
      StepsCompose(x, Step(x, s, i), i + 1, n - 1, k);
    }
  }

  lemma SixteenSteps(x: seq<Word>, s: State, i: nat)
    requires |x| == 16
    ensures Steps(x, s, i, 16) == Steps(x, Steps(x, Steps(x, Steps(x, s, i, 4), i + 4, 4), i + 8, 4), i + 12, 4)
  {
    hide Step, Steps;
    StepsCompose(x, s, i, 4, 12);
    StepsCompose(x, Steps(x, s, i, 4), i + 4, 4, 8);
    StepsCompose(x, Steps(x, Steps(x, s, i, 4), i + 4, 4), i + 8, 4, 4);
  }

  lemma SixtyFourSteps(x: seq<Word>, s: State)
    requires |x| == 16
    ensures Steps(x, s, 0, 64) == Steps(x, Steps(x, Steps(x, Steps(x, s, 0, 16), 16, 16), 32, 16), 48, 16)
  {
    hide Step, Steps;
    StepsCompose(x, s, 0, 16, 48);
    StepsCompose(x, Steps(x, s, 0, 16), 16, 16, 32);
    StepsCompose(x, Steps(x, Steps(x, s, 0, 16), 16, 16), 32, 16, 16);
  }

  method Round1(x: seq<Word>, a0: Word, b0: Word, c0: Word, d0: Word)
    returns (a: Word, b: Word, c: Word, d: Word)
    requires |x| == 16
    ensures State(a, b, c, d) == Steps(x, State(a0, b0, c0, d0), 0, 16)
  {
    hide FF, Step, Steps, Index, Sine;
    a, b, c, d := a0, b0, c0, d0;
    ghost var s := State(a, b, c, d);
    SixteenSteps(x, s, 0);
    Table0();
    FFQuad(x, a, b, c, d, 0);
    a := FF(a, b, c, d, x[0], 7, 0xd76aa478);
    d := FF(d, a, b, c, x[1], 12, 0xe8c7b756);
    c := FF(c, d, a, b, x[2], 17, 0x242070db);
    b := FF(b, c, d, a, x[3], 22, 0xc1bdceee);
    Table4();
    FFQuad(x, a, b, c, d, 4);
    a := FF(a, b, c, d, x[4], 7, 0xf57c0faf);
    d := FF(d, a, b, c, x[5], 12, 0x4787c62a);
    c := FF(c, d, a, b, x[6], 17, 0xa8304613);
    b := FF(b, c, d, a, x[7], 22, 0xfd469501);
    Table8();
    FFQuad(x, a, b, c, d, 8);
    a := FF(a, b, c, d, x[8], 7, 0x698098d8);
    d := FF(d, a, b, c, x[9], 12, 0x8b44f7af);
    c := FF(c, d, a, b, x[10], 17, 0xffff5bb1);
    b := FF(b, c, d, a, x[11], 22, 0x895cd7be);
    Table12();
    FFQuad(x, a, b, c, d, 12);
    a := FF(a, b, c, d, x[12], 7, 0x6b901122);
    d := FF(d, a, b, c, x[13], 12, 0xfd987193);
    c := FF(c, d, a, b, x[14], 17, 0xa679438e);
    b := FF(b, c, d, a, x[15], 22, 0x49b40821);
  }

  method Round2(x: seq<Word>, a0: Word, b0: Word, c0: Word, d0: Word)
    returns (a: Word, b: Word, c: Word, d: Word)
    requires |x| == 16
    ensures State(a, b, c, d) == Steps(x, State(a0, b0, c0, d0), 16, 16)
  {
    hide GG, Step, Steps, Index, Sine;
    a, b, c, d := a0, b0, c0, d0;
    ghost var s := State(a, b, c, d);
    SixteenSteps(x, s, 16);
    Table16();
    GGQuad(x, a, b, c, d, 16);
    a := GG(a, b, c, d, x[1], 5, 0xf61e2562);
    d := GG(d, a, b, c, x[6], 9, 0xc040b340);
    c := GG(c, d, a, b, x[11], 14, 0x265e5a51);
    b := GG(b, c, d, a, x[0], 20, 0xe9b6c7aa);
    Table20();
    GGQuad(x, a, b, c, d, 20);
    a := GG(a, b, c, d, x[5], 5, 0xd62f105d);
    d := GG(d, a, b, c, x[10], 9, 0x02441453);
    c := GG(c, d, a, b, x[15], 14, 0xd8a1e681);
    b := GG(b, c, d, a, x[4], 20, 0xe7d3fbc8);
    Table24();
    GGQuad(x, a, b, c, d, 24);
    a := GG(a, b, c, d, x[9], 5, 0x21e1cde6);
    d := GG(d, a, b, c, x[14], 9, 0xc33707d6);
    c := GG(c, d, a, b, x[3], 14, 0xf4d50d87);
    b := GG(b, c, d, a, x[8], 20, 0x455a14ed);
    Table28();
    GGQuad(x, a, b, c, d, 28);
    a := GG(a, b, c, d, x[13], 5, 0xa9e3e905);
    d := GG(d, a, b, c, x[2], 9, 0xfcefa3f8);
    c := GG(c, d, a, b, x[7], 14, 0x676f02d9);
    b := GG(b, c, d, a, x[12], 20, 0x8d2a4c8a);
  }

  method Round3(x: seq<Word>, a0: Word, b0: Word, c0: Word, d0: Word)
    returns (a: Word, b: Word, c: Word, d: Word)
    requires |x| == 16
    ensures State(a, b, c, d) == Steps(x, State(a0, b0, c0, d0), 32, 16)
  {
    hide HH, Step, Steps, Index, Sine;
    a, b, c, d := a0, b0, c0, d0;
    ghost var s := State(a, b, c, d);
    SixteenSteps(x, s, 32);
    Table32();
    HHQuad(x, a, b, c, d, 32);
    a := HH(a, b, c, d, x[5], 4, 0xfffa3942);
    d := HH(d, a, b, c, x[8], 11, 0x8771f681);
    c := HH(c, d, a, b, x[11], 16, 0x6d9d6122);
    b := HH(b, c, d, a, x[14], 23, 0xfde5380c);
    Table36();
    HHQuad(x, a, b, c, d, 36);
    a := HH(a, b, c, d, x[1], 4, 0xa4beea44);
    d := HH(d, a, b, c, x[4], 11, 0x4bdecfa9);
    c := HH(c, d, a, b, x[7], 16, 0xf6bb4b60);
    b := HH(b, c, d, a, x[10], 23, 0xbebfbc70);
    Table40();
    HHQuad(x, a, b, c, d, 40);
    a := HH(a, b, c, d, x[13], 4, 0x289b7ec6);
    d := HH(d, a, b, c, x[0], 11, 0xeaa127fa);
    c := HH(c, d, a, b, x[3], 16, 0xd4ef3085);
    b := HH(b, c, d, a, x[6], 23, 0x04881d05);
    Table44();
    HHQuad(x, a, b, c, d, 44);
    a := HH(a, b, c, d, x[9], 4, 0xd9d4d039);
    d := HH(d, a, b, c, x[12], 11, 0xe6db99e5);
    c := HH(c, d, a, b, x[15], 16, 0x1fa27cf8);
    b := HH(b, c, d, a, x[2], 23, 0xc4ac5665);
  }

  method Round4(x: seq<Word>, a0: Word, b0: Word, c0: Word, d0: Word)
    returns (a: Word, b: Word, c: Word, d: Word)
    requires |x| == 16
    ensures State(a, b, c, d) == Steps(x, State(a0, b0, c0, d0), 48, 16)
  {
    hide II, Step, Steps, Index, Sine;
    a, b, c, d := a0, b0, c0, d0;
    ghost var s := State(a, b, c, d);
    SixteenSteps(x, s, 48);
    Table48();
    IIQuad(x, a, b, c, d, 48);
    a := II(a, b, c, d, x[0], 6, 0xf4292244);
    d := II(d, a, b, c, x[7], 10, 0x432aff97);
    c := II(c, d, a, b, x[14], 15, 0xab9423a7);
    b := II(b, c, d, a, x[5], 21, 0xfc93a039);
    Table52();
    IIQuad(x, a, b, c, d, 52);
    a := II(a, b, c, d, x[12], 6, 0x655b59c3);
    d := II(d, a, b, c, x[3], 10, 0x8f0ccc92);
    c := II(c, d, a, b, x[10], 15, 0xffeff47d);
    b := II(b, c, d, a, x[1], 21, 0x85845dd1);
    Table56();
    IIQuad(x, a, b, c, d, 56);
    a := II(a, b, c, d, x[8], 6, 0x6fa87e4f);
    d := II(d, a, b, c, x[15], 10, 0xfe2ce6e0);
    c := II(c, d, a, b, x[6], 15, 0xa3014314);
    b := II(b, c, d, a, x[13], 21, 0x4e0811a1);
    Table60();
    IIQuad(x, a, b, c, d, 60);
    a := II(a, b, c, d, x[4], 6, 0xf7537e82);
    d := II(d, a, b, c, x[11], 10, 0xbd3af235);
    c := II(c, d, a, b, x[2], 15, 0x2ad7d2bb);
    b := II(b, c, d, a, x[9], 21, 0xeb86d391);
  }

  /** All four rounds, as `transform` runs them. */
  method Rounds(x: seq<Word>, s: State) returns (t: State)
    requires |x| == 16
    ensures t == Steps(x, s, 0, 64)
  {
    hide Step, Steps;
    SixtyFourSteps(x, s);
    var a, b, c, d := Round1(x, s.a, s.b, s.c, s.d);
    a, b, c, d := Round2(x, a, b, c, d);
    a, b, c, d := Round3(x, a, b, c, d);
    a, b, c, d := Round4(x, a, b, c, d);
    t := State(a, b, c, d);
  }

  function Unstep(x: seq<Word>, s: State, i: nat): State
    requires |x| == 16
  {
    var b, c, d := s.c, s.d, s.a;
    State(Unoperation(s.b, b, Auxiliary(i, b, c, d), x[Index(i)], Sine(i), Shift(i)), b, c, d)
  }

  function Unsteps(x: seq<Word>, s: State, i: nat, n: nat): State
    requires |x| == 16
    decreases n
  {
    if n == 0 then s else Unstep(x, Unsteps(x, s, i + 1, n - 1), i)
  }

  predicate IsShift(n: Word) {
    n == 7 || n == 12 || n == 17 || n == 22 || n == 5 || n == 9 || n == 14 || n == 20 ||
    n == 4 || n == 11 || n == 16 || n == 23 || n == 6 || n == 10 || n == 15 || n == 21
  }

  lemma ShiftIsShift(i: nat)
    ensures IsShift(Shift(i))
  {
  }

  lemma RotateBy7(x: Word)
    ensures RotateRight(RotateLeft(x, 7), 7) == x
    ensures RotateLeft(RotateRight(x, 7), 7) == x
  {
  }

  lemma RotateBy12(x: Word)
    ensures RotateRight(RotateLeft(x, 12), 12) == x
    ensures RotateLeft(RotateRight(x, 12), 12) == x
  {
  }

  lemma RotateBy17(x: Word)
    ensures RotateRight(RotateLeft(x, 17), 17) == x
    ensures RotateLeft(RotateRight(x, 17), 17) == x
  {
  }

  lemma RotateBy22(x: Word)
    ensures RotateRight(RotateLeft(x, 22), 22) == x
    ensures RotateLeft(RotateRight(x, 22), 22) == x
  {
  }

  lemma RotateBy5(x: Word)
    ensures RotateRight(RotateLeft(x, 5), 5) == x
    ensures RotateLeft(RotateRight(x, 5), 5) == x
  {
  }

  lemma RotateBy9(x: Word)
    ensures RotateRight(RotateLeft(x, 9), 9) == x
    ensures RotateLeft(RotateRight(x, 9), 9) == x
  {
  }

  lemma RotateBy14(x: Word)
    ensures RotateRight(RotateLeft(x, 14), 14) == x
    ensures RotateLeft(RotateRight(x, 14), 14) == x
  {
  }

  lemma RotateBy20(x: Word)
    ensures RotateRight(RotateLeft(x, 20), 20) == x
    ensures RotateLeft(RotateRight(x, 20), 20) == x
  {
  }

  lemma RotateBy4(x: Word)
    ensures RotateRight(RotateLeft(x, 4), 4) == x
    ensures RotateLeft(RotateRight(x, 4), 4) == x
  {
  }

  lemma RotateBy11(x: Word)
    ensures RotateRight(RotateLeft(x, 11), 11) == x
    ensures RotateLeft(RotateRight(x, 11), 11) == x
  {
  }

  lemma RotateBy16(x: Word)
    ensures RotateRight(RotateLeft(x, 16), 16) == x
    ensures RotateLeft(RotateRight(x, 16), 16) == x
  {
  }

  lemma RotateBy23(x: Word)
    ensures RotateRight(RotateLeft(x, 23), 23) == x
    ensures RotateLeft(RotateRight(x, 23), 23) == x
  {
  }

  lemma RotateBy6(x: Word)
    ensures RotateRight(RotateLeft(x, 6), 6) == x
    ensures RotateLeft(RotateRight(x, 6), 6) == x
  {
  }

  lemma RotateBy10(x: Word)
    ensures RotateRight(RotateLeft(x, 10), 10) == x
    ensures RotateLeft(RotateRight(x, 10), 10) == x
  {
  }

  lemma RotateBy15(x: Word)
    ensures RotateRight(RotateLeft(x, 15), 15) == x
    ensures RotateLeft(RotateRight(x, 15), 15) == x
  {
  }

  lemma RotateBy21(x: Word)
    ensures RotateRight(RotateLeft(x, 21), 21) == x
    ensures RotateLeft(RotateRight(x, 21), 21) == x
  {
  }

  lemma RotateInverse(x: Word, n: Word)
    requires IsShift(n)
    ensures RotateRight(RotateLeft(x, n), n) == x
    ensures RotateLeft(RotateRight(x, n), n) == x
  {
    hide RotateLeft, RotateRight;
    RotateBy7(x);
    RotateBy12(x);
    RotateBy17(x);
    RotateBy22(x);
    RotateBy5(x);
    RotateBy9(x);
    RotateBy14(x);
    RotateBy20(x);
    RotateBy4(x);
    RotateBy11(x);
    RotateBy16(x);
    RotateBy23(x);
    RotateBy6(x);
    RotateBy10(x);
    RotateBy15(x);
    RotateBy21(x);
  }

  lemma MinusOfPlus(x: Word, y: Word)
    ensures Minus(Plus(x, y), x) == y
    ensures Minus(Plus(x, y), y) == x
  {
    assert Minus(x + y, x) == y;
    assert Minus(x + y, y) == x;
  }

  lemma PlusOfMinus(x: Word, y: Word)
    ensures Plus(y, Minus(x, y)) == x
    ensures Plus(Minus(x, y), y) == x
  {
    assert Plus(y, x - y) == x;
    assert Plus(x - y, y) == x;
  }

  /** Subtract, rotate back, subtract. */
  function Unoperation(r: Word, b: Word, f: Word, x: Word, t: Word, s: Word): Word
    requires 0 < s < 32
  {
    Minus(RotateRight(Minus(r, b), s), Addend(f, x, t))
  }

  lemma OperationInverse(a: Word, b: Word, f: Word, x: Word, t: Word, s: Word)
    requires 0 < s < 32 && IsShift(s)
    ensures Unoperation(Operation(a, b, f, x, t, s), b, f, x, t, s) == a
    ensures Operation(Unoperation(a, b, f, x, t, s), b, f, x, t, s) == a
  {
    hide RotateLeft, RotateRight, Addend, Plus, Minus, IsShift;
    var added := Plus(a, Addend(f, x, t));
    MinusOfPlus(b, RotateLeft(added, s));
    RotateInverse(added, s);
    MinusOfPlus(a, Addend(f, x, t));

    PlusOfMinus(RotateRight(Minus(a, b), s), Addend(f, x, t));
    RotateInverse(Minus(a, b), s);
    PlusOfMinus(a, b);
  }

  lemma StepInverse(x: seq<Word>, s: State, i: nat)
    requires |x| == 16
    ensures Unstep(x, Step(x, s, i), i) == s
    ensures Step(x, Unstep(x, s, i), i) == s
  {
    hide Sine, Index, Shift, Auxiliary, Operation, Unoperation, IsShift;
    ShiftIsShift(i);
    OperationInverse(s.a, s.b, Auxiliary(i, s.b, s.c, s.d), x[Index(i)], Sine(i), Shift(i));
    OperationInverse(s.b, s.c, Auxiliary(i, s.c, s.d, s.a), x[Index(i)], Sine(i), Shift(i));
  }

  /** For a fixed block, any run of operations is undone by the run of inverse operations, on
      either side: the operations before the feed-forward permute the four-word states. */
  lemma {:induction false} StepsBijective(x: seq<Word>, s: State, i: nat, n: nat)
    requires |x| == 16
    ensures Unsteps(x, Steps(x, s, i, n), i, n) == s
    ensures Steps(x, Unsteps(x, s, i, n), i, n) == s
    decreases n
  {
    hide Step, Unstep;
    if n == 0 {
    } else {
      StepInverse(x, s, i);
      StepsBijective(x, Step(x, s, i), i + 1, n - 1);
      var t := Unsteps(x, s, i + 1, n - 1);
      StepInverse(x, t, i);
      StepsBijective(x, s, i + 1, n - 1);
    }
  }

  /** The whole block operation, feed-forward included, can be undone by whoever knows the state it
      started from: subtract that, and run the inverse operations. */
  lemma CompressInverse(s: State, block: seq<byte>)
    requires |block| == 64
    ensures
      var c := Compress(s, block);
      var t := State(Minus(c.a, s.a), Minus(c.b, s.b), Minus(c.c, s.c), Minus(c.d, s.d));
      Unsteps(DecodeWords(block), t, 0, 64) == s
  {
    hide Steps, Unsteps, Plus, Minus, DecodeWords;
    var t := Steps(DecodeWords(block), s, 0, 64);
    MinusOfPlus(s.a, t.a);
    MinusOfPlus(s.b, t.b);
    MinusOfPlus(s.c, t.c);
    MinusOfPlus(s.d, t.d);
    StepsBijective(DecodeWords(block), s, 0, 64);
  }
}
