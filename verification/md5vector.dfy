/**
 One test vector of RFC 1321, section A.5, carried through all 128 operations: the digest of the
 62 letters and digits, whose padded form has two blocks.
 */
module Md5Vector {
  import opened Bytes
  import opened Md5Spec
  import opened Md5Rounds

  // The first block.

  function First(): (x: seq<Word>)
    ensures |x| == 16
  {
    [
      0x44434241, 0x48474645, 0x4c4b4a49, 0x504f4e4d, 0x54535251, 0x58575655, 0x62615a59, 0x66656463,
      0x6a696867, 0x6e6d6c6b, 0x7271706f, 0x76757473, 0x7a797877, 0x33323130, 0x37363534, 0x00803938
    ]
  }

  lemma FirstOperations1()
    ensures FF(0x67452301, 0xefcdab89, 0x98badcfe, 0x10325476, 0x44434241, 7, 0xd76aa478) == 0xc6c10796
    ensures FF(0x10325476, 0xc6c10796, 0xefcdab89, 0x98badcfe, 0x48474645, 12, 0xe8c7b756) == 0x99a09999
    ensures FF(0x98badcfe, 0x99a09999, 0xc6c10796, 0xefcdab89, 0x4c4b4a49, 17, 0x242070db) == 0x11067980
    ensures FF(0xefcdab89, 0x11067980, 0x99a09999, 0xc6c10796, 0x504f4e4d, 22, 0xc1bdceee) == 0x27bce07a
    ensures FF(0xc6c10796, 0x27bce07a, 0x11067980, 0x99a09999, 0x54535251, 7, 0xf57c0faf) == 0xf22e6c4e
    ensures FF(0x99a09999, 0xf22e6c4e, 0x27bce07a, 0x11067980, 0x58575655, 12, 0x4787c62a) == 0xb4ac9218
    ensures FF(0x11067980, 0xb4ac9218, 0xf22e6c4e, 0x27bce07a, 0x62615a59, 17, 0xa8304613) == 0xa95a2fc0
    ensures FF(0x27bce07a, 0xa95a2fc0, 0xb4ac9218, 0xf22e6c4e, 0x66656463, 22, 0xfd469501) == 0xa4799506
    ensures FF(0xf22e6c4e, 0xa4799506, 0xa95a2fc0, 0xb4ac9218, 0x6a696867, 7, 0x698098d8) == 0x1eb3e7c1
    ensures FF(0xb4ac9218, 0x1eb3e7c1, 0xa4799506, 0xa95a2fc0, 0x6e6d6c6b, 12, 0x8b44f7af) == 0xa6e70cfe
    ensures FF(0xa95a2fc0, 0xa6e70cfe, 0x1eb3e7c1, 0xa4799506, 0x7271706f, 17, 0xffff5bb1) == 0xca27520b
    ensures FF(0xa4799506, 0xca27520b, 0xa6e70cfe, 0x1eb3e7c1, 0x76757473, 22, 0x895cd7be) == 0x8a7612ec
    ensures FF(0x1eb3e7c1, 0x8a7612ec, 0xca27520b, 0xa6e70cfe, 0x7a797877, 7, 0x6b901122) == 0x3cbdcd45
    ensures FF(0xa6e70cfe, 0x3cbdcd45, 0x8a7612ec, 0xca27520b, 0x33323130, 12, 0xfd987193) == 0xb8dec763
    ensures FF(0xca27520b, 0xb8dec763, 0x3cbdcd45, 0x8a7612ec, 0x37363534, 17, 0xa679438e) == 0xfa148c8a
    ensures FF(0x8a7612ec, 0xfa148c8a, 0xb8dec763, 0x3cbdcd45, 0x00803938, 22, 0x49b40821) == 0x5d38e690
  {
  }

  lemma FirstRound1()
    ensures Steps(First(), State(0x67452301, 0xefcdab89, 0x98badcfe, 0x10325476), 0, 16)
         == State(0x3cbdcd45, 0x5d38e690, 0xfa148c8a, 0xb8dec763)
  {
    hide FF, Steps, Index, Sine;
    FirstOperations1();
    SixteenSteps(First(), State(0x67452301, 0xefcdab89, 0x98badcfe, 0x10325476), 0);
    Table0();
    FFQuad(First(), 0x67452301, 0xefcdab89, 0x98badcfe, 0x10325476, 0);
    Table4();
    FFQuad(First(), 0xc6c10796, 0x27bce07a, 0x11067980, 0x99a09999, 4);
    Table8();
    FFQuad(First(), 0xf22e6c4e, 0xa4799506, 0xa95a2fc0, 0xb4ac9218, 8);
    Table12();
    FFQuad(First(), 0x1eb3e7c1, 0x8a7612ec, 0xca27520b, 0xa6e70cfe, 12);
  }

  lemma FirstOperations2()
    ensures GG(0x3cbdcd45, 0x5d38e690, 0xfa148c8a, 0xb8dec763, 0x48474645, 5, 0xf61e2562) == 0x04b9d52a
    ensures GG(0xb8dec763, 0x04b9d52a, 0x5d38e690, 0xfa148c8a, 0x62615a59, 9, 0xc040b340) == 0x783002eb
    ensures GG(0xfa148c8a, 0x783002eb, 0x04b9d52a, 0x5d38e690, 0x76757473, 14, 0x265e5a51) == 0xd3ee3ed1
    ensures GG(0x5d38e690, 0xd3ee3ed1, 0x783002eb, 0x04b9d52a, 0x44434241, 20, 0xe9b6c7aa) == 0x47ae7c81
    ensures GG(0x04b9d52a, 0x47ae7c81, 0xd3ee3ed1, 0x783002eb, 0x58575655, 5, 0xd62f105d) == 0x2d7d8a3f
    ensures GG(0x783002eb, 0x2d7d8a3f, 0x47ae7c81, 0xd3ee3ed1, 0x7271706f, 9, 0x02441453) == 0xd1210823
    ensures GG(0xd3ee3ed1, 0xd1210823, 0x2d7d8a3f, 0x47ae7c81, 0x00803938, 14, 0xd8a1e681) == 0x4b534dc3
    ensures GG(0x47ae7c81, 0x4b534dc3, 0xd1210823, 0x2d7d8a3f, 0x54535251, 20, 0xe7d3fbc8) == 0x75292030
    ensures GG(0x2d7d8a3f, 0x75292030, 0x4b534dc3, 0xd1210823, 0x6e6d6c6b, 5, 0x21e1cde6) == 0x9d2a6e33
    ensures GG(0xd1210823, 0x9d2a6e33, 0x75292030, 0x4b534dc3, 0x37363534, 9, 0xc33707d6) == 0x0e8d2e44
    ensures GG(0x4b534dc3, 0x0e8d2e44, 0x9d2a6e33, 0x75292030, 0x504f4e4d, 14, 0xf4d50d87) == 0xd473b564
    ensures GG(0x75292030, 0xd473b564, 0x0e8d2e44, 0x9d2a6e33, 0x6a696867, 20, 0x455a14ed) == 0xf2ff6ea0
    ensures GG(0x9d2a6e33, 0xf2ff6ea0, 0xd473b564, 0x0e8d2e44, 0x33323130, 5, 0xa9e3e905) == 0x9b085fa9
    ensures GG(0x0e8d2e44, 0x9b085fa9, 0xf2ff6ea0, 0xd473b564, 0x4c4b4a49, 9, 0xfcefa3f8) == 0x4400a9bd
    ensures GG(0xd473b564, 0x4400a9bd, 0x9b085fa9, 0xf2ff6ea0, 0x66656463, 14, 0x676f02d9) == 0x5993248f
    ensures GG(0xf2ff6ea0, 0x5993248f, 0x4400a9bd, 0x9b085fa9, 0x7a797877, 20, 0x8d2a4c8a) == 0xdd789ecc
  {
  }

  lemma FirstRound2()
    ensures Steps(First(), State(0x3cbdcd45, 0x5d38e690, 0xfa148c8a, 0xb8dec763), 16, 16)
         == State(0x9b085fa9, 0xdd789ecc, 0x5993248f, 0x4400a9bd)
  {
    hide GG, Steps, Index, Sine;
    FirstOperations2();
    SixteenSteps(First(), State(0x3cbdcd45, 0x5d38e690, 0xfa148c8a, 0xb8dec763), 16);
    Table16();
    GGQuad(First(), 0x3cbdcd45, 0x5d38e690, 0xfa148c8a, 0xb8dec763, 16);
    Table20();
    GGQuad(First(), 0x04b9d52a, 0x47ae7c81, 0xd3ee3ed1, 0x783002eb, 20);
    Table24();
    GGQuad(First(), 0x2d7d8a3f, 0x75292030, 0x4b534dc3, 0xd1210823, 24);
    Table28();
    GGQuad(First(), 0x9d2a6e33, 0xf2ff6ea0, 0xd473b564, 0x0e8d2e44, 28);
  }

  lemma FirstOperations3()
    ensures HH(0x9b085fa9, 0xdd789ecc, 0x5993248f, 0x4400a9bd, 0x58575655, 4, 0xfffa3942) == 0x21c8d2b7
    ensures HH(0x4400a9bd, 0x21c8d2b7, 0xdd789ecc, 0x5993248f, 0x6a696867, 11, 0x8771f681) == 0x1d55a18e
    ensures HH(0x5993248f, 0x1d55a18e, 0x21c8d2b7, 0xdd789ecc, 0x76757473, 16, 0x6d9d6122) == 0x056ec119
    ensures HH(0xdd789ecc, 0x056ec119, 0x1d55a18e, 0x21c8d2b7, 0x37363534, 23, 0xfde5380c) == 0x1b9504f8
    ensures HH(0x21c8d2b7, 0x1b9504f8, 0x056ec119, 0x1d55a18e, 0x48474645, 4, 0xa4beea44) == 0x436b7fe9
    ensures HH(0x1d55a18e, 0x436b7fe9, 0x1b9504f8, 0x056ec119, 0x54535251, 11, 0x4bdecfa9) == 0x075800c1
    ensures HH(0x056ec119, 0x075800c1, 0x436b7fe9, 0x1b9504f8, 0x66656463, 16, 0xf6bb4b60) == 0xf404c2f6
    ensures HH(0x1b9504f8, 0xf404c2f6, 0x075800c1, 0x436b7fe9, 0x7271706f, 23, 0xbebfbc70) == 0xcf0341ed
    ensures HH(0x436b7fe9, 0xcf0341ed, 0xf404c2f6, 0x075800c1, 0x33323130, 4, 0x289b7ec6) == 0x888e7d8a
    ensures HH(0x075800c1, 0x888e7d8a, 0xcf0341ed, 0xf404c2f6, 0x44434241, 11, 0xeaa127fa) == 0xbbdaecd8
    ensures HH(0xf404c2f6, 0xbbdaecd8, 0x888e7d8a, 0xcf0341ed, 0x504f4e4d, 16, 0xd4ef3085) == 0xce620273
    ensures HH(0xcf0341ed, 0xce620273, 0xbbdaecd8, 0x888e7d8a, 0x62615a59, 23, 0x04881d05) == 0x047b9419
    ensures HH(0x888e7d8a, 0x047b9419, 0xce620273, 0xbbdaecd8, 0x6e6d6c6b, 4, 0xd9d4d039) == 0x2dbee21d
    ensures HH(0xbbdaecd8, 0x2dbee21d, 0x047b9419, 0xce620273, 0x7a797877, 11, 0xe6db99e5) == 0xe95c3a43
    ensures HH(0xce620273, 0xe95c3a43, 0x2dbee21d, 0x047b9419, 0x00803938, 16, 0x1fa27cf8) == 0xee46e961
    ensures HH(0x047b9419, 0xee46e961, 0xe95c3a43, 0x2dbee21d, 0x4c4b4a49, 23, 0xc4ac5665) == 0xf166f514
  {
  }

  lemma FirstRound3()
    ensures Steps(First(), State(0x9b085fa9, 0xdd789ecc, 0x5993248f, 0x4400a9bd), 32, 16)
         == State(0x2dbee21d, 0xf166f514, 0xee46e961, 0xe95c3a43)
  {
    hide HH, Steps, Index, Sine;
    FirstOperations3();
    SixteenSteps(First(), State(0x9b085fa9, 0xdd789ecc, 0x5993248f, 0x4400a9bd), 32);
    Table32();
    HHQuad(First(), 0x9b085fa9, 0xdd789ecc, 0x5993248f, 0x4400a9bd, 32);
    Table36();
    HHQuad(First(), 0x21c8d2b7, 0x1b9504f8, 0x056ec119, 0x1d55a18e, 36);
    Table40();
    HHQuad(First(), 0x436b7fe9, 0xcf0341ed, 0xf404c2f6, 0x075800c1, 40);
    Table44();
    HHQuad(First(), 0x888e7d8a, 0x047b9419, 0xce620273, 0xbbdaecd8, 44);
  }

  lemma FirstOperations4()
    ensures II(0x2dbee21d, 0xf166f514, 0xee46e961, 0xe95c3a43, 0x44434241, 6, 0xf4292244) == 0xe47fd4f3
    ensures II(0xe95c3a43, 0xe47fd4f3, 0xf166f514, 0xee46e961, 0x66656463, 10, 0x432aff97) == 0xfb887751
    ensures II(0xee46e961, 0xfb887751, 0xe47fd4f3, 0xf166f514, 0x37363534, 15, 0xab9423a7) == 0xf22aedcc
    ensures II(0xf166f514, 0xf22aedcc, 0xfb887751, 0xe47fd4f3, 0x58575655, 21, 0xfc93a039) == 0x7a13bc5c
    ensures II(0xe47fd4f3, 0x7a13bc5c, 0xf22aedcc, 0xfb887751, 0x7a797877, 6, 0x655b59c3) == 0xa691d430
    ensures II(0xfb887751, 0xa691d430, 0x7a13bc5c, 0xf22aedcc, 0x504f4e4d, 10, 0x8f0ccc92) == 0x528452f2
    ensures II(0xf22aedcc, 0x528452f2, 0xa691d430, 0x7a13bc5c, 0x7271706f, 15, 0xffeff47d) == 0x3fc23df6
    ensures II(0x7a13bc5c, 0x3fc23df6, 0x528452f2, 0xa691d430, 0x48474645, 21, 0x85845dd1) == 0xefb0e72f
    ensures II(0xa691d430, 0xefb0e72f, 0x3fc23df6, 0x528452f2, 0x6a696867, 6, 0x6fa87e4f) == 0x27145703
    ensures II(0x528452f2, 0x27145703, 0xefb0e72f, 0x3fc23df6, 0x00803938, 10, 0xfe2ce6e0) == 0x21a11069
    ensures II(0x3fc23df6, 0x21a11069, 0x27145703, 0xefb0e72f, 0x62615a59, 15, 0xa3014314) == 0x374fbe79
    ensures II(0xefb0e72f, 0x374fbe79, 0x21a11069, 0x27145703, 0x33323130, 21, 0x4e0811a1) == 0x49d9a5b4
    ensures II(0x27145703, 0x49d9a5b4, 0x374fbe79, 0x21a11069, 0x54535251, 6, 0xf7537e82) == 0x1cb80f0a
    ensures II(0x21a11069, 0x1cb80f0a, 0x49d9a5b4, 0x374fbe79, 0x76757473, 10, 0xbd3af235) == 0xea3d3eb4
    ensures II(0x374fbe79, 0xea3d3eb4, 0x1cb80f0a, 0x49d9a5b4, 0x4c4b4a49, 15, 0x2ad7d2bb) == 0x10f68731
    ensures II(0x49d9a5b4, 0x10f68731, 0xea3d3eb4, 0x1cb80f0a, 0x6e6d6c6b, 21, 0xeb86d391) == 0xef2e3a46
  {
  }

  lemma FirstRound4()
    ensures Steps(First(), State(0x2dbee21d, 0xf166f514, 0xee46e961, 0xe95c3a43), 48, 16)
         == State(0x1cb80f0a, 0xef2e3a46, 0x10f68731, 0xea3d3eb4)
  {
    hide II, Steps, Index, Sine;
    FirstOperations4();
    SixteenSteps(First(), State(0x2dbee21d, 0xf166f514, 0xee46e961, 0xe95c3a43), 48);
    Table48();
    IIQuad(First(), 0x2dbee21d, 0xf166f514, 0xee46e961, 0xe95c3a43, 48);
    Table52();
    IIQuad(First(), 0xe47fd4f3, 0x7a13bc5c, 0xf22aedcc, 0xfb887751, 52);
    Table56();
    IIQuad(First(), 0xa691d430, 0xefb0e72f, 0x3fc23df6, 0x528452f2, 56);
    Table60();
    IIQuad(First(), 0x27145703, 0x49d9a5b4, 0x374fbe79, 0x21a11069, 60);
  }

  lemma FirstSums()
    ensures Plus(0x67452301, 0x1cb80f0a) == 0x83fd320b
    ensures Plus(0xefcdab89, 0xef2e3a46) == 0xdefbe5cf
    ensures Plus(0x98badcfe, 0x10f68731) == 0xa9b1642f
    ensures Plus(0x10325476, 0xea3d3eb4) == 0xfa6f932a
  {
  }

  lemma FirstCompress(block: seq<byte>)
    requires |block| == 64 && DecodeWords(block) == First()
    ensures Compress(State(0x67452301, 0xefcdab89, 0x98badcfe, 0x10325476), block)
         == State(0x83fd320b, 0xdefbe5cf, 0xa9b1642f, 0xfa6f932a)
  {
    hide Steps, DecodeWords, Plus;
    FirstRound1();
    FirstRound2();
    FirstRound3();
    FirstRound4();
    SixtyFourSteps(First(), State(0x67452301, 0xefcdab89, 0x98badcfe, 0x10325476));
    FirstSums();
  }

  // The second block.

  function Second(): (x: seq<Word>)
    ensures |x| == 16
  {
    [
      0x00000000, 0x00000000, 0x00000000, 0x00000000, 0x00000000, 0x00000000, 0x00000000, 0x00000000,
      0x00000000, 0x00000000, 0x00000000, 0x00000000, 0x00000000, 0x00000000, 0x000001f0, 0x00000000
    ]
  }

  lemma SecondOperations1()
    ensures FF(0x83fd320b, 0xdefbe5cf, 0xa9b1642f, 0xfa6f932a, 0x00000000, 7, 0xd76aa478) == 0xeda23ed1
    ensures FF(0xfa6f932a, 0xeda23ed1, 0xdefbe5cf, 0xa9b1642f, 0x00000000, 12, 0xe8c7b756) == 0x989939cf
    ensures FF(0xa9b1642f, 0x989939cf, 0xeda23ed1, 0xdefbe5cf, 0x00000000, 17, 0x242070db) == 0x3c307338
    ensures FF(0xdefbe5cf, 0x3c307338, 0x989939cf, 0xeda23ed1, 0x00000000, 22, 0xc1bdceee) == 0xddcf0634
    ensures FF(0xeda23ed1, 0xddcf0634, 0x3c307338, 0x989939cf, 0x00000000, 7, 0xf57c0faf) == 0x75144433
    ensures FF(0x989939cf, 0x75144433, 0xddcf0634, 0x3c307338, 0x00000000, 12, 0x4787c62a) == 0xc8875807
    ensures FF(0x3c307338, 0xc8875807, 0x75144433, 0xddcf0634, 0x00000000, 17, 0xa8304613) == 0xc783cb60
    ensures FF(0xddcf0634, 0xc783cb60, 0xc8875807, 0x75144433, 0x00000000, 22, 0xfd469501) == 0x99b6b699
    ensures FF(0x75144433, 0x99b6b699, 0xc783cb60, 0xc8875807, 0x00000000, 7, 0x698098d8) == 0xa60a3f69
    ensures FF(0xc8875807, 0xa60a3f69, 0x99b6b699, 0xc783cb60, 0x00000000, 12, 0x8b44f7af) == 0xaa6630be
    ensures FF(0xc783cb60, 0xaa6630be, 0xa60a3f69, 0x99b6b699, 0x00000000, 17, 0xffff5bb1) == 0x64db26e9
    ensures FF(0x99b6b699, 0x64db26e9, 0xaa6630be, 0xa60a3f69, 0x00000000, 22, 0x895cd7be) == 0x64cc7c5a
    ensures FF(0xa60a3f69, 0x64cc7c5a, 0x64db26e9, 0xaa6630be, 0x00000000, 7, 0x6b901122) == 0xa70737da
    ensures FF(0xaa6630be, 0xa70737da, 0x64cc7c5a, 0x64db26e9, 0x00000000, 12, 0xfd987193) == 0x5473f8a7
    ensures FF(0x64db26e9, 0x5473f8a7, 0xa70737da, 0x64cc7c5a, 0x000001f0, 17, 0xa679438e) == 0x96f6586e
    ensures FF(0x64cc7c5a, 0x96f6586e, 0x5473f8a7, 0xa70737da, 0x00000000, 22, 0x49b40821) == 0xa36f556f
  {
  }

  lemma SecondRound1()
    ensures Steps(Second(), State(0x83fd320b, 0xdefbe5cf, 0xa9b1642f, 0xfa6f932a), 0, 16)
         == State(0xa70737da, 0xa36f556f, 0x96f6586e, 0x5473f8a7)
  {
    hide FF, Steps, Index, Sine;
    SecondOperations1();
    SixteenSteps(Second(), State(0x83fd320b, 0xdefbe5cf, 0xa9b1642f, 0xfa6f932a), 0);
    Table0();
    FFQuad(Second(), 0x83fd320b, 0xdefbe5cf, 0xa9b1642f, 0xfa6f932a, 0);
    Table4();
    FFQuad(Second(), 0xeda23ed1, 0xddcf0634, 0x3c307338, 0x989939cf, 4);
    Table8();
    FFQuad(Second(), 0x75144433, 0x99b6b699, 0xc783cb60, 0xc8875807, 8);
    Table12();
    FFQuad(Second(), 0xa60a3f69, 0x64cc7c5a, 0x64db26e9, 0xaa6630be, 12);
  }

  lemma SecondOperations2()
    ensures GG(0xa70737da, 0xa36f556f, 0x96f6586e, 0x5473f8a7, 0x00000000, 5, 0xf61e2562) == 0xa5050ad3
    ensures GG(0x5473f8a7, 0xa5050ad3, 0xa36f556f, 0x96f6586e, 0x00000000, 9, 0xc040b340) == 0x28776046
    ensures GG(0x96f6586e, 0x28776046, 0xa5050ad3, 0xa36f556f, 0x00000000, 14, 0x265e5a51) == 0x27dcd8b4
    ensures GG(0xa36f556f, 0x27dcd8b4, 0x28776046, 0xa5050ad3, 0x00000000, 20, 0xe9b6c7aa) == 0x82b8827c
    ensures GG(0xa5050ad3, 0x82b8827c, 0x27dcd8b4, 0x28776046, 0x00000000, 5, 0xd62f105d) == 0xe04f070c
    ensures GG(0x28776046, 0xe04f070c, 0x82b8827c, 0x27dcd8b4, 0x00000000, 9, 0x02441453) == 0x2f3cd2a2
    ensures GG(0x27dcd8b4, 0x2f3cd2a2, 0xe04f070c, 0x82b8827c, 0x00000000, 14, 0xd8a1e681) == 0xc0d22b61
    ensures GG(0x82b8827c, 0xc0d22b61, 0x2f3cd2a2, 0xe04f070c, 0x00000000, 20, 0xe7d3fbc8) == 0xdf35cb56
    ensures GG(0xe04f070c, 0xdf35cb56, 0xc0d22b61, 0x2f3cd2a2, 0x00000000, 5, 0x21e1cde6) == 0x242dd210
    ensures GG(0x2f3cd2a2, 0x242dd210, 0xdf35cb56, 0xc0d22b61, 0x000001f0, 9, 0xc33707d6) == 0x576ace33
    ensures GG(0xc0d22b61, 0x576ace33, 0x242dd210, 0xdf35cb56, 0x00000000, 14, 0xf4d50d87) == 0x5c295967
    ensures GG(0xdf35cb56, 0x5c295967, 0x576ace33, 0x242dd210, 0x00000000, 20, 0x455a14ed) == 0x2291191a
    ensures GG(0x242dd210, 0x2291191a, 0x5c295967, 0x576ace33, 0x00000000, 5, 0xa9e3e905) == 0x24eba695
    ensures GG(0x576ace33, 0x24eba695, 0x2291191a, 0x5c295967, 0x00000000, 9, 0xfcefa3f8) == 0x4bd0378b
    ensures GG(0x5c295967, 0x4bd0378b, 0x24eba695, 0x2291191a, 0x00000000, 14, 0x676f02d9) == 0x10c42a2f
    ensures GG(0x2291191a, 0x10c42a2f, 0x4bd0378b, 0x24eba695, 0x00000000, 20, 0x8d2a4c8a) == 0x9c03e2e8
  {
  }

  lemma SecondRound2()
    ensures Steps(Second(), State(0xa70737da, 0xa36f556f, 0x96f6586e, 0x5473f8a7), 16, 16)
         == State(0x24eba695, 0x9c03e2e8, 0x10c42a2f, 0x4bd0378b)
  {
    hide GG, Steps, Index, Sine;
    SecondOperations2();
    SixteenSteps(Second(), State(0xa70737da, 0xa36f556f, 0x96f6586e, 0x5473f8a7), 16);
    Table16();
    GGQuad(Second(), 0xa70737da, 0xa36f556f, 0x96f6586e, 0x5473f8a7, 16);
    Table20();
    GGQuad(Second(), 0xa5050ad3, 0x82b8827c, 0x27dcd8b4, 0x28776046, 20);
    Table24();
    GGQuad(Second(), 0xe04f070c, 0xdf35cb56, 0xc0d22b61, 0x2f3cd2a2, 24);
    Table28();
    GGQuad(Second(), 0x242dd210, 0x2291191a, 0x5c295967, 0x576ace33, 28);
  }

  lemma SecondOperations3()
    ensures HH(0x24eba695, 0x9c03e2e8, 0x10c42a2f, 0x4bd0378b, 0x00000000, 4, 0xfffa3942) == 0x5be1d526
    ensures HH(0x4bd0378b, 0x5be1d526, 0x9c03e2e8, 0x10c42a2f, 0x00000000, 11, 0x8771f681) == 0x9e414279
    ensures HH(0x10c42a2f, 0x9e414279, 0x5be1d526, 0x9c03e2e8, 0x00000000, 16, 0x6d9d6122) == 0x9f4a1a7e
    ensures HH(0x9c03e2e8, 0x9f4a1a7e, 0x9e414279, 0x5be1d526, 0x000001f0, 23, 0xfde5380c) == 0xa2448453
    ensures HH(0x5be1d526, 0xa2448453, 0x9f4a1a7e, 0x9e414279, 0x00000000, 4, 0xa4beea44) == 0xe14e403d
    ensures HH(0x9e414279, 0xe14e403d, 0xa2448453, 0x9f4a1a7e, 0x00000000, 11, 0x4bdecfa9) == 0xe8cfd670
    ensures HH(0x9f4a1a7e, 0xe8cfd670, 0xe14e403d, 0xa2448453, 0x00000000, 16, 0xf6bb4b60) == 0x60cc183a
    ensures HH(0xa2448453, 0x60cc183a, 0xe8cfd670, 0xe14e403d, 0x00000000, 23, 0xbebfbc70) == 0xfe314121
    ensures HH(0xe14e403d, 0xfe314121, 0x60cc183a, 0xe8cfd670, 0x00000000, 4, 0x289b7ec6) == 0xfff62809
    ensures HH(0xe8cfd670, 0xfff62809, 0xfe314121, 0x60cc183a, 0x00000000, 11, 0xeaa127fa) == 0xe37209ac
    ensures HH(0x60cc183a, 0xe37209ac, 0xfff62809, 0xfe314121, 0x00000000, 16, 0xd4ef3085) == 0x8cb5221c
    ensures HH(0xfe314121, 0x8cb5221c, 0xe37209ac, 0xfff62809, 0x00000000, 23, 0x04881d05) == 0x7c7e974c
    ensures HH(0xfff62809, 0x7c7e974c, 0x8cb5221c, 0xe37209ac, 0x00000000, 4, 0xd9d4d039) == 0x54c9eb3a
    ensures HH(0xe37209ac, 0x54c9eb3a, 0x7c7e974c, 0x8cb5221c, 0x00000000, 11, 0xe6db99e5) == 0xd4d9c6ac
    ensures HH(0x8cb5221c, 0xd4d9c6ac, 0x54c9eb3a, 0x7c7e974c, 0x00000000, 16, 0x1fa27cf8) == 0x2ec86f72
    ensures HH(0x7c7e974c, 0x2ec86f72, 0xd4d9c6ac, 0x54c9eb3a, 0x00000000, 23, 0xc4ac5665) == 0x79c0710a
  {
  }

  lemma SecondRound3()
    ensures Steps(Second(), State(0x24eba695, 0x9c03e2e8, 0x10c42a2f, 0x4bd0378b), 32, 16)
         == State(0x54c9eb3a, 0x79c0710a, 0x2ec86f72, 0xd4d9c6ac)
  {
    hide HH, Steps, Index, Sine;
    SecondOperations3();
    SixteenSteps(Second(), State(0x24eba695, 0x9c03e2e8, 0x10c42a2f, 0x4bd0378b), 32);
    Table32();
    HHQuad(Second(), 0x24eba695, 0x9c03e2e8, 0x10c42a2f, 0x4bd0378b, 32);
    Table36();
    HHQuad(Second(), 0x5be1d526, 0xa2448453, 0x9f4a1a7e, 0x9e414279, 36);
    Table40();
    HHQuad(Second(), 0xe14e403d, 0xfe314121, 0x60cc183a, 0xe8cfd670, 40);
    Table44();
    HHQuad(Second(), 0xfff62809, 0x7c7e974c, 0x8cb5221c, 0xe37209ac, 44);
  }

  lemma SecondOperations4()
    ensures II(0x54c9eb3a, 0x79c0710a, 0x2ec86f72, 0xd4d9c6ac, 0x00000000, 6, 0xf4292244) == 0x02095af1
    ensures II(0xd4d9c6ac, 0x02095af1, 0x79c0710a, 0x2ec86f72, 0x00000000, 10, 0x432aff97) == 0x13d245fd
    ensures II(0x2ec86f72, 0x13d245fd, 0x02095af1, 0x79c0710a, 0x000001f0, 15, 0xab9423a7) == 0xa8dcfe26
    ensures II(0x79c0710a, 0xa8dcfe26, 0x13d245fd, 0x02095af1, 0x00000000, 21, 0xfc93a039) == 0x2ba98e3f
    ensures II(0x02095af1, 0x2ba98e3f, 0xa8dcfe26, 0x13d245fd, 0x00000000, 6, 0x655b59c3) == 0xe126c1aa
    ensures II(0x13d245fd, 0xe126c1aa, 0x2ba98e3f, 0xa8dcfe26, 0x00000000, 10, 0x8f0ccc92) == 0x96b00fa7
    ensures II(0xa8dcfe26, 0x96b00fa7, 0xe126c1aa, 0x2ba98e3f, 0x00000000, 15, 0xffeff47d) == 0x6f287ff5
    ensures II(0x2ba98e3f, 0x6f287ff5, 0x96b00fa7, 0xe126c1aa, 0x00000000, 21, 0x85845dd1) == 0xfb7bcee0
    ensures II(0xe126c1aa, 0xfb7bcee0, 0x6f287ff5, 0x96b00fa7, 0x00000000, 6, 0x6fa87e4f) == 0x452c1099
    ensures II(0x96b00fa7, 0x452c1099, 0xfb7bcee0, 0x6f287ff5, 0x00000000, 10, 0xfe2ce6e0) == 0xca801ba6
    ensures II(0x6f287ff5, 0xca801ba6, 0x452c1099, 0xfb7bcee0, 0x00000000, 15, 0xa3014314) == 0xc197ea8e
    ensures II(0xfb7bcee0, 0xc197ea8e, 0xca801ba6, 0x452c1099, 0x00000000, 21, 0x4e0811a1) == 0x5ac74608
    ensures II(0x452c1099, 0x5ac74608, 0xc197ea8e, 0xca801ba6, 0x00000000, 6, 0xf7537e82) == 0x14ae42c6
    ensures II(0xca801ba6, 0x14ae42c6, 0x5ac74608, 0xc197ea8e, 0x00000000, 10, 0xbd3af235) == 0xa52dae75
    ensures II(0xc197ea8e, 0xa52dae75, 0x14ae42c6, 0x5ac74608, 0x00000000, 15, 0x2ad7d2bb) == 0x826afd76
    ensures II(0x5ac74608, 0x826afd76, 0xa52dae75, 0x14ae42c6, 0x00000000, 21, 0xeb86d391) == 0x16dd9203
  {
  }

  lemma SecondRound4()
    ensures Steps(Second(), State(0x54c9eb3a, 0x79c0710a, 0x2ec86f72, 0xd4d9c6ac), 48, 16)
         == State(0x14ae42c6, 0x16dd9203, 0x826afd76, 0xa52dae75)
  {
    hide II, Steps, Index, Sine;
    SecondOperations4();
    SixteenSteps(Second(), State(0x54c9eb3a, 0x79c0710a, 0x2ec86f72, 0xd4d9c6ac), 48);
    Table48();
    IIQuad(Second(), 0x54c9eb3a, 0x79c0710a, 0x2ec86f72, 0xd4d9c6ac, 48);
    Table52();
    IIQuad(Second(), 0x02095af1, 0x2ba98e3f, 0xa8dcfe26, 0x13d245fd, 52);
    Table56();
    IIQuad(Second(), 0xe126c1aa, 0xfb7bcee0, 0x6f287ff5, 0x96b00fa7, 56);
    Table60();
    IIQuad(Second(), 0x452c1099, 0x5ac74608, 0xc197ea8e, 0xca801ba6, 60);
  }

  lemma SecondSums()
    ensures Plus(0x83fd320b, 0x14ae42c6) == 0x98ab74d1
    ensures Plus(0xdefbe5cf, 0x16dd9203) == 0xf5d977d2
    ensures Plus(0xa9b1642f, 0x826afd76) == 0x2c1c61a5
    ensures Plus(0xfa6f932a, 0xa52dae75) == 0x9f9d419f
  {
  }

  lemma SecondCompress(block: seq<byte>)
    requires |block| == 64 && DecodeWords(block) == Second()
    ensures Compress(State(0x83fd320b, 0xdefbe5cf, 0xa9b1642f, 0xfa6f932a), block)
         == State(0x98ab74d1, 0xf5d977d2, 0x2c1c61a5, 0x9f9d419f)
  {
    hide Steps, DecodeWords, Plus;
    SecondRound1();
    SecondRound2();
    SecondRound3();
    SecondRound4();
    SixtyFourSteps(Second(), State(0x83fd320b, 0xdefbe5cf, 0xa9b1642f, 0xfa6f932a));
    SecondSums();
  }
  // The message.

  /** The ASCII codes of A to Z, a to z and 0 to 9. */
  function Character(k: nat): byte
    requires k < 62
  {
    (if k < 26 then 65 + k else if k < 52 then 97 + (k - 26) else 48 + (k - 52)) as byte
  }

  function LettersAndDigits(): (m: seq<byte>)
    ensures |m| == 62
  {
    seq(62, k requires 0 <= k < 62 => Character(k))
  }

  lemma FirstBytes1()
    ensures DecodeWord([Character(0), Character(1), Character(2), Character(3)]) == 0x44434241
    ensures DecodeWord([Character(4), Character(5), Character(6), Character(7)]) == 0x48474645
    ensures DecodeWord([Character(8), Character(9), Character(10), Character(11)]) == 0x4c4b4a49
    ensures DecodeWord([Character(12), Character(13), Character(14), Character(15)]) == 0x504f4e4d
  {
  }

  lemma FirstBytes2()
    ensures DecodeWord([Character(16), Character(17), Character(18), Character(19)]) == 0x54535251
    ensures DecodeWord([Character(20), Character(21), Character(22), Character(23)]) == 0x58575655
    ensures DecodeWord([Character(24), Character(25), Character(26), Character(27)]) == 0x62615a59
    ensures DecodeWord([Character(28), Character(29), Character(30), Character(31)]) == 0x66656463
  {
  }

  lemma FirstBytes3()
    ensures DecodeWord([Character(32), Character(33), Character(34), Character(35)]) == 0x6a696867
    ensures DecodeWord([Character(36), Character(37), Character(38), Character(39)]) == 0x6e6d6c6b
    ensures DecodeWord([Character(40), Character(41), Character(42), Character(43)]) == 0x7271706f
    ensures DecodeWord([Character(44), Character(45), Character(46), Character(47)]) == 0x76757473
  {
  }

  lemma FirstBytes4()
    ensures DecodeWord([Character(48), Character(49), Character(50), Character(51)]) == 0x7a797877
    ensures DecodeWord([Character(52), Character(53), Character(54), Character(55)]) == 0x33323130
    ensures DecodeWord([Character(56), Character(57), Character(58), Character(59)]) == 0x37363534
    ensures DecodeWord([Character(60), Character(61), 0x80, 0x00]) == 0x00803938
  {
  }

  lemma SecondBytes()
    ensures DecodeWord([0, 0, 0, 0]) == 0 && DecodeWord([0xf0, 0x01, 0, 0]) == 0x1f0
  {
  }

  lemma FirstBlock()
    ensures DecodeWords(LettersAndDigits() + [0x80, 0]) == First()
  {
    hide DecodeWord, DecodeWords, Character;
    var block := LettersAndDigits() + [0x80, 0];
    FirstBytes1();
    FirstBytes2();
    FirstBytes3();
    FirstBytes4();
    DecodeWordsAt(block, 0);
    DecodeWordsAt(block, 1);
    DecodeWordsAt(block, 2);
    DecodeWordsAt(block, 3);
    DecodeWordsAt(block, 4);
    DecodeWordsAt(block, 5);
    DecodeWordsAt(block, 6);
    DecodeWordsAt(block, 7);
    DecodeWordsAt(block, 8);
    DecodeWordsAt(block, 9);
    DecodeWordsAt(block, 10);
    DecodeWordsAt(block, 11);
    DecodeWordsAt(block, 12);
    DecodeWordsAt(block, 13);
    DecodeWordsAt(block, 14);
    DecodeWordsAt(block, 15);
  }

  lemma SecondBlock()
    ensures DecodeWords(Zeros(56) + [0xf0, 0x01, 0, 0, 0, 0, 0, 0]) == Second()
  {
    hide DecodeWord, DecodeWords;
    var block := Zeros(56) + [0xf0, 0x01, 0, 0, 0, 0, 0, 0];
    SecondBytes();
    DecodeWordsAt(block, 0);
    DecodeWordsAt(block, 1);
    DecodeWordsAt(block, 2);
    DecodeWordsAt(block, 3);
    DecodeWordsAt(block, 4);
    DecodeWordsAt(block, 5);
    DecodeWordsAt(block, 6);
    DecodeWordsAt(block, 7);
    DecodeWordsAt(block, 8);
    DecodeWordsAt(block, 9);
    DecodeWordsAt(block, 10);
    DecodeWordsAt(block, 11);
    DecodeWordsAt(block, 12);
    DecodeWordsAt(block, 13);
    DecodeWordsAt(block, 14);
    DecodeWordsAt(block, 15);
  }

  lemma Length()
    ensures LengthBytes(62) == [0xf0, 0x01, 0, 0, 0, 0, 0, 0]
  {
    hide LittleEndian;
    Low();
    High();
  }

  lemma Low()
    ensures LittleEndian(496) == [0xf0, 0x01, 0, 0]
  {
  }

  lemma High()
    ensures LittleEndian(0) == [0, 0, 0, 0]
  {
  }

  lemma Padded()
    ensures Pad(LettersAndDigits()) == (LettersAndDigits() + [0x80, 0]) + (Zeros(56) + [0xf0, 0x01, 0, 0, 0, 0, 0, 0])
  {
    hide LengthBytes;
    Length();
    assert PadLength(62) == 58;
    assert Zeros(57) == [0] + Zeros(56);
  }

  lemma Printed()
    ensures EncodeWord(0x98ab74d1) == [0xd1, 0x74, 0xab, 0x98]
    ensures EncodeWord(0xf5d977d2) == [0xd2, 0x77, 0xd9, 0xf5]
    ensures EncodeWord(0x2c1c61a5) == [0xa5, 0x61, 0x1c, 0x2c]
    ensures EncodeWord(0x9f9d419f) == [0x9f, 0x41, 0x9d, 0x9f]
  {
  }

  /** MD5 ("ABCDEFGHIJKLMNOPQRSTUVWXYZabcdefghijklmnopqrstuvwxyz0123456789") =
      d174ab98d277d9f5a5611c2c9f419d9f. */
  lemma DigestOfLettersAndDigits()
    ensures Digest(LettersAndDigits()) == [
      0xd1, 0x74, 0xab, 0x98, 0xd2, 0x77, 0xd9, 0xf5,
      0xa5, 0x61, 0x1c, 0x2c, 0x9f, 0x41, 0x9d, 0x9f
    ]
  {
    hide Absorb, Compress, DecodeWords, EncodeWord, Pad, LettersAndDigits;
    var first, second := LettersAndDigits() + [0x80, 0], Zeros(56) + [0xf0, 0x01, 0, 0, 0, 0, 0, 0];
    Padded();
    AbsorbNone();
    FirstBlock();
    FirstCompress(first);
    AbsorbBlock(INITIAL_STATE, [], first);
    assert [] + first == first;
    SecondBlock();
    SecondCompress(second);
    AbsorbBlock(INITIAL_STATE, first, second);
    Printed();
    EncodeFour(0x98ab74d1, 0xf5d977d2, 0x2c1c61a5, 0x9f9d419f);
  }

  lemma AbsorbNone()
    ensures Absorb(INITIAL_STATE, []) == INITIAL_STATE
  {
  }

  lemma EncodeFour(a: Word, b: Word, c: Word, d: Word)
    ensures EncodeWords([a, b, c, d]) == EncodeWord(a) + EncodeWord(b) + EncodeWord(c) + EncodeWord(d)
  {
    hide EncodeWord;
    assert [a, b, c, d][..3] == [a, b, c] && [a, b, c][..2] == [a, b] && [a, b][..1] == [a];
    assert EncodeWords([a]) == EncodeWords([]) + EncodeWord(a);
    assert EncodeWords([a, b]) == EncodeWords([a]) + EncodeWord(b);
    assert EncodeWords([a, b, c]) == EncodeWords([a, b]) + EncodeWord(c);
    assert EncodeWords([a, b, c, d]) == EncodeWords([a, b, c]) + EncodeWord(d);
  }
}
