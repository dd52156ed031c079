/**
 The identity of a file: its printed digest and its number of blocks.  It keys the client's map
 of transfers, and travels in packets as the raw memory of the object.
 */
module FileInfos {
  import opened Bytes
  import opened Streams
  import opened Md5
  import Md5Spec
  import Hex

  const BLOCKSIZE := 1024

  /** Thirty-two hexadecimal digits and a zero. */
  type DigestText = s: seq<byte> | |s| == 33 witness Zeros(33)

  /** `numBlocks` is in network byte order, as `htonl` left it. */
  datatype FileInfo = FileInfo(digest: DigestText, numBlocks: uint4)

  function GetBlockCount(info: FileInfo): uint4 {
    Htonl(info.numBlocks)
  }

  /** How many blocks cover `n` bytes, as a 32-bit number. */
  function BlockCount(n: nat): uint4 {
    (n + BLOCKSIZE - 1) / BLOCKSIZE % TWO_TO_THE_32
  }

  function InfoFor(digest: seq<byte>, blocks: uint4): FileInfo
    requires |digest| == 16
  {
    FileInfo(Hex.Text(digest), Htonl(blocks))
  }

  /** The identity of a file with the given content. */
  function InfoOf(content: seq<byte>): FileInfo {
    InfoFor(Md5Spec.Digest(content), BlockCount(|content|))
  }

  lemma InfoOfBlockCount(content: seq<byte>)
    ensures GetBlockCount(InfoOf(content)) == BlockCount(|content|)
  {
    hide Md5Spec.Digest, Htonl;
    HtonlInvolution(BlockCount(|content|));
  }

  /** The constructor: the size from seeking to the end, the digest from reading it all. */
  method Create(content: seq<byte>) returns (info: FileInfo)
    ensures info == InfoOf(content)
  {
    hide Md5Spec.Digest, Htonl, Hex.Text, MD5.Streaming;
    var input := new InputStream(content);
    var size := |content|;
    var numBlocks := size / BLOCKSIZE % TWO_TO_THE_32;
    if size % BLOCKSIZE != 0 {
      numBlocks := (numBlocks + 1) % TWO_TO_THE_32;
    }
    RoundUp(size);
    numBlocks := Htonl(numBlocks);
    input.Seek(0);
    var context := new MD5.FromStream(input);
    var digest := context.HexDigest();
    RestFromStart(content);
    info := FileInfo(digest.value, numBlocks);
  }

  lemma RoundUp(size: nat)
    ensures BlockCount(size) ==
      if size % BLOCKSIZE != 0 then (size / BLOCKSIZE % TWO_TO_THE_32 + 1) % TWO_TO_THE_32
      else size / BLOCKSIZE % TWO_TO_THE_32
  {
    var q, r := size / BLOCKSIZE, size % BLOCKSIZE;
    assert size + BLOCKSIZE - 1 == BLOCKSIZE * q + (r + BLOCKSIZE - 1);
    assert (size + BLOCKSIZE - 1) / BLOCKSIZE == if r != 0 then q + 1 else q;
    NextModulo(q);
  }

  lemma NextModulo(q: nat)
    ensures (q % TWO_TO_THE_32 + 1) % TWO_TO_THE_32 == (q + 1) % TWO_TO_THE_32
  {
  }

  lemma RestFromStart(content: seq<byte>)
    ensures Rest(content, 0) == content
  {
  }

  // Order.

  /** `operator<`. */
  predicate Less(x: FileInfo, y: FileInfo) {
    var val := Hex.Memcmp(x.digest, y.digest);
    if val != 0 then val < 0 else x.numBlocks < y.numBlocks
  }

  /** A strict total order: irreflexive, transitive, and any two different keys are ordered one
      way and not the other, so a map keyed by it tells apart exactly the different values. */
  lemma LessIsStrictTotalOrder(x: FileInfo, y: FileInfo, z: FileInfo)
    ensures !Less(x, x)
    ensures Less(x, y) && Less(y, z) ==> Less(x, z)
    ensures x != y <==> Less(x, y) || Less(y, x)
    ensures !(Less(x, y) && Less(y, x))
  {
    hide Hex.Memcmp;
    Hex.MemcmpZero(x.digest, x.digest);
    Hex.MemcmpZero(x.digest, y.digest);
    Hex.MemcmpAntisymmetric(x.digest, y.digest);
    if Less(x, y) && Less(y, z) {
      Hex.MemcmpTransitive(x.digest, y.digest, z.digest);
      Hex.MemcmpZero(y.digest, z.digest);
      Hex.MemcmpZero(x.digest, z.digest);
    }
  }

  /** Keys that the order cannot separate come from equal digests and equal block counts, and
      keys with different digests are ordered by the first byte in which the raw digests differ. */
  lemma KeysFollowDigests(d: seq<byte>, n: uint4, d': seq<byte>, n': uint4)
    requires |d| == |d'| == 16
    ensures !Less(InfoFor(d, n), InfoFor(d', n')) && !Less(InfoFor(d', n'), InfoFor(d, n)) <==> d == d' && n == n'
    ensures d != d' ==> (Less(InfoFor(d, n), InfoFor(d', n')) <==> exists k :: Hex.DiffersAt(d, d', k))
    ensures d == d' ==> (Less(InfoFor(d, n), InfoFor(d', n')) <==> Htonl(n) < Htonl(n'))
  {
    hide Hex.Memcmp, Htonl, Hex.Text;
    var x, y := InfoFor(d, n), InfoFor(d', n');
    LessIsStrictTotalOrder(x, y, x);
    HtonlInvolution(n);
    HtonlInvolution(n');
    Hex.TextOrder(d, d');
    Hex.MemcmpFirst(d, d');
    Hex.MemcmpZero(d, d');
    if x == y {
      Hex.TextInjective(d, d');
    }
  }

  /** `operator==`: true if the digests compare different. */
  predicate Equal(x: FileInfo, y: FileInfo) {
    Hex.Memcmp(x.digest, y.digest) != 0 && x.numBlocks == y.numBlocks
  }

  /** It answers correctly exactly when the block counts differ: then it says no, and otherwise
      the opposite of what is true. */
  lemma EqualExact(x: FileInfo, y: FileInfo)
    ensures (Equal(x, y) <==> x == y) <==> x.numBlocks != y.numBlocks
  {
    hide Hex.Memcmp;
    Hex.MemcmpZero(x.digest, y.digest);
  }

  /** An identity is the printed digest of the content, read back, and its number of blocks. */
  lemma IdentityReads(content: seq<byte>)
    ensures Hex.Parse(InfoOf(content).digest[..32]) == Md5Spec.Digest(content) && InfoOf(content).digest[32] == 0
    ensures GetBlockCount(InfoOf(content)) == BlockCount(|content|)
  {
    hide Md5Spec.Digest, Htonl, Hex.Digits, Hex.Parse;
    InfoOfBlockCount(content);
    var d := Md5Spec.Digest(content);
    assert Hex.Text(d)[..32] == Hex.Digits(d);
    Hex.ParseInvertsDigits(d);
  }

  /** The block count covers the content and no more, unless it has more than 2^32 - 1 blocks. */
  lemma BlockCountCovers(n: nat)
    requires n <= BLOCKSIZE * (TWO_TO_THE_32 - 1)
    ensures BLOCKSIZE * BlockCount(n) >= n > BLOCKSIZE * (BlockCount(n) - 1)
  {
  }

  /** With that many more blocks it starts again. */
  lemma BlockCountWraps(n: nat)
    ensures BlockCount(n + BLOCKSIZE * TWO_TO_THE_32) == BlockCount(n)
  {
    var q, r := (n + BLOCKSIZE - 1) / BLOCKSIZE, (n + BLOCKSIZE - 1) % BLOCKSIZE;
    assert n + BLOCKSIZE * TWO_TO_THE_32 + BLOCKSIZE - 1 == BLOCKSIZE * (q + TWO_TO_THE_32) + r;
    assert (n + BLOCKSIZE * TWO_TO_THE_32 + BLOCKSIZE - 1) / BLOCKSIZE == q + TWO_TO_THE_32;
  }

  // The memory image: 33 bytes, 3 bytes of alignment, 4 bytes.

  const SIZE := 40

  function ToBytes(info: FileInfo): (s: seq<byte>)
    ensures |s| == SIZE
  {
    info.digest + Zeros(3) + LittleEndian(info.numBlocks)
  }

  function FromBytes(s: seq<byte>): FileInfo
    requires |s| >= SIZE
  {
    FileInfo(s[..33], FromLittleEndian(s[36..40]))
  }

  lemma ImageRoundTrip(info: FileInfo, rest: seq<byte>)
    ensures FromBytes(ToBytes(info) + rest) == info
  {
    hide LittleEndian, FromLittleEndian;
    var s := ToBytes(info) + rest;
    assert s[36..40] == LittleEndian(info.numBlocks);
    WordRoundTrip(info.numBlocks);
  }

  /** A block of a file, with the block number in network byte order. */
  class BlockInfo {
    const fileInfo: FileInfo
    var blockNum: uint4

    constructor (info: FileInfo, block: uint4)
      ensures fileInfo == info && GetBlock() == block
    {
      hide Htonl;
      fileInfo := info;
      blockNum := Htonl(block);
      HtonlInvolution(block);
    }

    /** `operator unsigned int`. */
    function GetBlock(): uint4
      reads this
    {
      Htonl(blockNum)
    }

    /** `operator++`. */
    method Increment()
      modifies this
      ensures GetBlock() == (old(GetBlock()) + 1) % TWO_TO_THE_32
    {
      hide Htonl;
      var next := (Htonl(blockNum) + 1) % TWO_TO_THE_32;
      blockNum := Htonl(next);
      HtonlInvolution(next);
    }

    /** The memory image. */
    function Image(): (s: seq<byte>)
      reads this
      ensures s == BlockImage(fileInfo, GetBlock())
    {
      hide Htonl;
      HtonlInvolution(blockNum);
      ToBytes(fileInfo) + LittleEndian(blockNum)
    }
  }

  const BLOCK_SIZE := 44

  function BlockImage(info: FileInfo, block: uint4): (s: seq<byte>)
    ensures |s| == BLOCK_SIZE
  {
    ToBytes(info) + LittleEndian(Htonl(block))
  }

  function BlockFromBytes(s: seq<byte>): uint4
    requires |s| >= BLOCK_SIZE
  {
    Htonl(FromLittleEndian(s[40..44]))
  }

  /** Where things are: digest, three bytes of alignment, and both numbers in network order. */
  lemma ImageLayout(info: FileInfo, block: uint4)
    ensures
      var s := BlockImage(info, block);
      && s[..40] == ToBytes(info) && s[..33] == info.digest && s[33..36] == [0, 0, 0]
      && s[36..40] == BigEndian(GetBlockCount(info)) && s[40..] == BigEndian(block)
  {
    hide LittleEndian, BigEndian, Htonl;
    HtonlInMemory(block);
    HtonlInMemory(GetBlockCount(info));
    HtonlInvolution(info.numBlocks);
    assert Zeros(3) == [0, 0, 0];
  }

  lemma BlockImageRoundTrip(info: FileInfo, block: uint4)
    ensures FromBytes(BlockImage(info, block)) == info
    ensures BlockFromBytes(BlockImage(info, block)) == block
  {
    hide LittleEndian, FromLittleEndian, Htonl, ToBytes, FromBytes;
    ImageRoundTrip(info, LittleEndian(Htonl(block)));
    assert BlockImage(info, block)[40..44] == LittleEndian(Htonl(block));
    WordRoundTrip(Htonl(block));
    HtonlInvolution(block);
  }
}
