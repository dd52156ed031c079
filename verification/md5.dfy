/**
 The streaming digest object: a 64-byte buffer, four registers and a two-word bit counter,
 proved to compute `Md5Spec.Digest` of everything it was given, however that was cut up.
 */
module Md5 {
  import opened Bytes
  import opened Md5Spec
  import Md5Rounds
  import opened Streams
  import Hex

  /** The whole 64-byte blocks of a message, and what is left over. */
  function Whole(m: seq<byte>): (w: seq<byte>)
    ensures |w| % 64 == 0
  {
    m[..|m| - |m| % 64]
  }

  function Tail(m: seq<byte>): (t: seq<byte>)
    ensures |t| == |m| % 64
  {
    m[|m| - |m| % 64..]
  }

  /** A register with the value of a counter word. */
  function ToWord(n: uint4): Word {
    DecodeWord(LittleEndian(n))
  }

  lemma WholeAndTail(m: seq<byte>)
    ensures Whole(m) + Tail(m) == m
  {
  }

  // Counting.

  /** `count[1]:count[0]` as one number. */
  function Pair(low: uint4, high: uint4): int {
    low + TWO_TO_THE_32 * high
  }

  /** `count[0] += length << 3`, keeping 32 bits. */
  function AddLow(low: uint4, length: uint4): uint4 {
    (low + 8 * length % TWO_TO_THE_32) % TWO_TO_THE_32
  }

  /** The carry, detected because the sum is below the addend, and then `count[1] += length >> 29`. */
  function AddHigh(low: uint4, high: uint4, length: uint4): uint4 {
    var carried := if AddLow(low, length) < 8 * length % TWO_TO_THE_32 then (high + 1) % TWO_TO_THE_32 else high;
    (carried + length / 0x2000_0000) % TWO_TO_THE_32
  }

  /** The two words count bits modulo 2^64, for every 32-bit length. */
  lemma CounterAdds(low: uint4, high: uint4, length: uint4)
    ensures Pair(AddLow(low, length), AddHigh(low, high, length)) == (Pair(low, high) + 8 * length) % TWO_TO_THE_64
  {
    hide AddLow, AddHigh;
    var addLow, addHigh := 8 * length % TWO_TO_THE_32, length / 0x2000_0000;
    var carry := if low + addLow >= TWO_TO_THE_32 then 1 else 0;
    AddLowCarries(low, addLow, length);
    AddHighCarries(low, high, carry, length);
    WrapHigh(low + addLow - carry * TWO_TO_THE_32, high + carry + addHigh);
    SplitBits(length);
  }

  lemma SplitBits(length: uint4)
    ensures 8 * length == 8 * length % TWO_TO_THE_32 + TWO_TO_THE_32 * (length / 0x2000_0000)
  {
  }

  lemma AddLowCarries(low: uint4, addLow: uint4, length: uint4)
    requires addLow == 8 * length % TWO_TO_THE_32
    ensures AddLow(low, length) == if low + addLow >= TWO_TO_THE_32 then low + addLow - TWO_TO_THE_32 else low + addLow
    ensures AddLow(low, length) < addLow <==> low + addLow >= TWO_TO_THE_32
  {
  }

  lemma AddHighCarries(low: uint4, high: uint4, carry: nat, length: uint4)
    requires carry == if AddLow(low, length) < 8 * length % TWO_TO_THE_32 then 1 else 0
    ensures AddHigh(low, high, length) == (high + carry + length / 0x2000_0000) % TWO_TO_THE_32
  {
    hide AddLow;
  }

  lemma WrapHigh(low: uint4, sum: nat)
    ensures low + TWO_TO_THE_32 * (sum % TWO_TO_THE_32) == (low + TWO_TO_THE_32 * sum) % TWO_TO_THE_64
  {
    var q, r := sum / TWO_TO_THE_32, sum % TWO_TO_THE_32;
    assert low + TWO_TO_THE_32 * sum == q * TWO_TO_THE_64 + (low + TWO_TO_THE_32 * r);
    ModOfSum(q, low + TWO_TO_THE_32 * r);
  }

  /** `(count[0] >> 3) & 0x3F` is the number of bytes modulo 64. */
  lemma CounterIndex(low: uint4, high: uint4, n: nat)
    requires Pair(low, high) == 8 * n % TWO_TO_THE_64
    ensures low / 8 % 64 == n % 64
    ensures low == 8 * n % TWO_TO_THE_64 % TWO_TO_THE_32 && high == 8 * n % TWO_TO_THE_64 / TWO_TO_THE_32
  {
    var q, r := 8 * n / TWO_TO_THE_64, 8 * n % TWO_TO_THE_64;
    assert 8 * n == q * TWO_TO_THE_64 + r;
    PairDetermines(low, high, r);
    BytesOfBits(q, low, high, n);
  }

  lemma PairDetermines(low: uint4, high: uint4, r: nat)
    requires r == low + TWO_TO_THE_32 * high
    ensures low == r % TWO_TO_THE_32 && high == r / TWO_TO_THE_32
  {
  }

  lemma BytesOfBits(q: nat, low: uint4, high: uint4, n: nat)
    requires 8 * n == q * TWO_TO_THE_64 + low + TWO_TO_THE_32 * high
    ensures low / 8 % 64 == n % 64
  {
    var k, e := q * 0x80_0000_0000_0000 + high * 0x80_0000, low / 8;
    assert low == 8 * e + low % 8;
    assert n == 64 * k + e;
    ModSixtyFour(k, e);
  }

  lemma ModSixtyFour(k: nat, e: nat)
    ensures (64 * k + e) % 64 == e % 64
  {
  }

  lemma CounterStep(n: nat, length: nat)
    ensures (8 * n % TWO_TO_THE_64 + 8 * length) % TWO_TO_THE_64 == 8 * (n + length) % TWO_TO_THE_64
  {
    var q, r := 8 * n / TWO_TO_THE_64, 8 * n % TWO_TO_THE_64;
    var q', r' := (r + 8 * length) / TWO_TO_THE_64, (r + 8 * length) % TWO_TO_THE_64;
    assert 8 * (n + length) == (q + q') * TWO_TO_THE_64 + r';
    ModOfSum(q + q', r');
  }

  // The loop over whole blocks of the input.

  /** The loop guard `input_index + 63 < input_length`, in 32-bit arithmetic. */
  predicate MoreBlocks(index: nat, length: uint4) {
    (index + 63) % TWO_TO_THE_32 < length
  }

  /** Where fewer than 64 bytes of input are left, with `used` bytes in the buffer at first. */
  function LastIndex(used: nat, length: uint4): int {
    (used + length) / 64 * 64 - used
  }

  /** The loop comes to that place, whatever the length, and stops there, rather than running past
      the end of the input, exactly when the buffered bytes and the input together are less than
      2^32. */
  lemma GuardStopsExactly(used: nat, length: uint4)
    requires used < 64 <= used + length
    ensures 0 <= LastIndex(used, length) <= length < LastIndex(used, length) + 64
    ensures forall index: nat :: index < LastIndex(used, length) && (used + index) % 64 == 0 ==>
      MoreBlocks(index, length)
    ensures !MoreBlocks(LastIndex(used, length), length) <==> used + length < TWO_TO_THE_32
  {
    var last := LastIndex(used, length);
    forall index: nat | index < last && (used + index) % 64 == 0
      ensures MoreBlocks(index, length)
    {
      BlocksApart(used + index, used + last);
    }
    if used + length >= TWO_TO_THE_32 {
      assert last == TWO_TO_THE_32 - used;
      assert (last + 63) % TWO_TO_THE_32 == 63 - used;
    } else {
      assert last + used <= TWO_TO_THE_32 - 64;
    }
  }

  lemma BlocksApart(m: nat, n: nat)
    requires m < n && m % 64 == 0 && n % 64 == 0
    ensures m + 64 <= n
  {
  }

  lemma GuardIsExact(used: nat, index: nat, length: uint4)
    requires used < 64 && used + length < TWO_TO_THE_32
    requires index <= length && (used + index) % 64 == 0
    ensures MoreBlocks(index, length) <==> index + 64 <= length
  {
    assert used + index <= TWO_TO_THE_32 - 64;
  }

  class MD5 {
    const state: array<Word>
    const count: array<uint4>
    const buffer: array<byte>
    const digest: array<byte>
    var finalized: bool
    ghost var message: seq<byte>  // everything given to `update` so far

    ghost predicate Shape()
      reads this
    {
      state.Length == 4 && count.Length == 2 && buffer.Length == 64 && digest.Length == 16 && buffer != digest
    }

    /** The arrays that belong to this object: no caller passes one of them as input. */
    ghost predicate Owns(o: object)
      reads this
    {
      o == state || o == count || o == buffer || o == digest
    }

    ghost function Registers(): State
      requires Shape()
      reads this, state
    {
      State(state[0], state[1], state[2], state[3])
    }

    /** What the fields mean before `finalize`. */
    ghost predicate Streaming()
      requires Shape()
      reads this, state, count, buffer
    {
      && Pair(count[0], count[1]) == 8 * |message| % TWO_TO_THE_64
      && Registers() == Absorb(INITIAL_STATE, Whole(message))
      && buffer[..|message| % 64] == Tail(message)
    }

    ghost predicate Valid()
      reads this, state, count, buffer, digest
    {
      && Shape()
      && (if finalized then digest[..] == Digest(message) else Streaming())
    }

    constructor ()
      ensures Valid() && !finalized && message == []
      ensures fresh(state) && fresh(count) && fresh(buffer) && fresh(digest)
    {
      state := new Word[4];
      count := new uint4[2];
      buffer := new byte[64];
      digest := new byte[16];
      message := [];
      finalized := false;
      new;
      Init();
    }

    method Init()
      requires Shape() && message == []
      modifies this`finalized, state, count
      ensures !finalized && Streaming()
    {
      hide Absorb, Whole, Tail;
      EmptyMessage();
      finalized := false;
      count[0] := 0;
      count[1] := 0;
      state[0] := 0x67452301;
      state[1] := 0xefcdab89;
      state[2] := 0x98badcfe;
      state[3] := 0x10325476;
    }

    /** Adds a number of bytes to the bit counter; returns how many bytes were buffered. */
    method CountBytes(inputLength: uint4, ghost n: nat) returns (bufferIndex: nat)
      requires Shape() && Pair(count[0], count[1]) == 8 * n % TWO_TO_THE_64
      modifies count
      ensures bufferIndex == n % 64
      ensures Pair(count[0], count[1]) == 8 * (n + inputLength) % TWO_TO_THE_64
    {
      CounterIndex(count[0], count[1], n);
      CounterAdds(count[0], count[1], inputLength);
      CounterStep(n, inputLength);
      bufferIndex := count[0] / 8 % 64;
      var added := 8 * inputLength % TWO_TO_THE_32;
      ghost var low, high := count[0], count[1];
      count[0] := (count[0] + added) % TWO_TO_THE_32;
      if count[0] < added {
        count[1] := (count[1] + 1) % TWO_TO_THE_32;
      }
      count[1] := (count[1] + inputLength / 0x2000_0000) % TWO_TO_THE_32;
      assert count[0] == AddLow(low, inputLength) && count[1] == AddHigh(low, high, inputLength);
    }

    /** Transforms the state by the 64 bytes at `at`. */
    method Transform(block: array<byte>, at: nat)
      requires Shape() && at + 64 <= block.Length
      modifies state
      ensures Registers() == Compress(old(Registers()), block[at..at + 64])
    {
      hide Md5Spec.Steps, DecodeWord, DecodeWords, Plus;
      var x := new Word[16];
      Decode(x, block, at, 64);
      assert x[..16] == x[..];
      var t := Md5Rounds.Rounds(x[..], State(state[0], state[1], state[2], state[3]));
      state[0] := Plus(state[0], t.a);
      state[1] := Plus(state[1], t.b);
      state[2] := Plus(state[2], t.c);
      state[3] := Plus(state[3], t.d);
      Clear(x);
    }

    method Update(input: array<byte>, inputLength: uint4)
      requires Valid() && inputLength <= input.Length && !Owns(input)
      requires !finalized ==> |message| % 64 + inputLength < TWO_TO_THE_32
      modifies this, state, count, buffer
      ensures Valid() && finalized == old(finalized)
      ensures message == if finalized then old(message) else old(message) + input[..inputLength]
    {
      hide Compress, Absorb, Digest, Whole, Tail;
      if finalized {
        return;
      }
      ghost var m, data := message, input[..inputLength];
      var bufferIndex := CountBytes(inputLength, |m|);
      assert input[..inputLength] == data;
      var inputIndex;
      inputIndex, bufferIndex := TransformInput(input, inputLength, bufferIndex, m);
      assert input[inputIndex..inputLength] == data[inputIndex..];
      Memcpy(buffer, bufferIndex, input, inputIndex, inputLength - inputIndex);
      assert buffer[..bufferIndex + inputLength - inputIndex] == buffer[..bufferIndex] + data[inputIndex..];
      message := m + data;
    }

    /** Transform as many times as possible; what is not transformed is left to be buffered. */
    method TransformInput(input: array<byte>, inputLength: uint4, index: nat, ghost m: seq<byte>)
      returns (inputIndex: nat, bufferIndex: nat)
      requires Shape() && inputLength <= input.Length && !Owns(input)
      requires index == |m| % 64 && |m| % 64 + inputLength < TWO_TO_THE_32
      requires Registers() == Absorb(INITIAL_STATE, Whole(m)) && buffer[..index] == Tail(m)
      modifies state, buffer
      ensures input[..] == old(input[..]) && inputIndex <= inputLength
      ensures Registers() == Absorb(INITIAL_STATE, Whole(m + input[..inputLength]))
      ensures bufferIndex + inputLength - inputIndex == |m + input[..inputLength]| % 64
      ensures buffer[..bufferIndex] + input[inputIndex..inputLength] == Tail(m + input[..inputLength])
    {
      hide Compress, Absorb, Whole, Tail;
      ghost var data := input[..inputLength];
      var bufferSpace := 64 - index;
      if inputLength >= bufferSpace {
        FillBuffer(input, index, bufferSpace, m);
        assert input[..inputLength] == data && input[..bufferSpace] == data[..bufferSpace];
        inputIndex := TransformWhole(input, inputLength, bufferSpace, m, data);
        bufferIndex := 0;
      } else {
        inputIndex, bufferIndex := 0, index;
      }
      Remainder(m, data, bufferIndex, inputIndex);
      assert input[inputIndex..inputLength] == data[inputIndex..];
    }

    /** The first block: what was buffered, completed from the input. */
    method FillBuffer(input: array<byte>, bufferIndex: nat, bufferSpace: nat, ghost m: seq<byte>)
      requires Shape() && !Owns(input) && bufferIndex == |m| % 64 && bufferSpace == 64 - bufferIndex <= input.Length
      requires Registers() == Absorb(INITIAL_STATE, Whole(m)) && buffer[..bufferIndex] == Tail(m)
      modifies state, buffer
      ensures Registers() == Absorb(INITIAL_STATE, m + input[..bufferSpace])
      ensures input[..] == old(input[..])
    {
      hide Compress, Absorb, Whole, Tail;
      ghost var filler := input[..bufferSpace];
      Memcpy(buffer, bufferIndex, input, 0, bufferSpace);
      assert buffer[0..64] == buffer[..bufferIndex] + buffer[bufferIndex..bufferIndex + bufferSpace];
      FirstBlock(m, filler);
      Transform(buffer, 0);
      assert input[..bufferSpace] == filler;
    }

    /** The middle loop of `update`: whole blocks straight from the input. */
    method TransformWhole(input: array<byte>, inputLength: uint4, start: nat, ghost m: seq<byte>, ghost data: seq<byte>)
      returns (inputIndex: nat)
      requires Shape() && !Owns(input) && inputLength <= input.Length && data == input[..inputLength]
      requires start <= inputLength && (|m| + start) % 64 == 0 && |m| % 64 + inputLength < TWO_TO_THE_32
      requires Registers() == Absorb(INITIAL_STATE, m + data[..start])
      modifies state
      ensures start <= inputIndex <= inputLength < inputIndex + 64 && (|m| + inputIndex) % 64 == 0
      ensures Registers() == Absorb(INITIAL_STATE, m + data[..inputIndex])
    {
      hide Compress, Absorb, MoreBlocks;
      inputIndex := start;
      GuardIsExact(|m| % 64, inputIndex, inputLength);
      while MoreBlocks(inputIndex, inputLength)
        invariant start <= inputIndex <= inputLength && (|m| + inputIndex) % 64 == 0
        invariant MoreBlocks(inputIndex, inputLength) <==> inputIndex + 64 <= inputLength
        invariant Registers() == Absorb(INITIAL_STATE, m + data[..inputIndex])
        decreases inputLength - inputIndex
      {
        NextBlock(m, data, inputIndex);
        Transform(input, inputIndex);
        assert input[inputIndex..inputIndex + 64] == data[inputIndex..inputIndex + 64];
        inputIndex := inputIndex + 64;
        GuardIsExact(|m| % 64, inputIndex, inputLength);
      }
    }

    /** `update` for streams: the rest of the stream, 1024 bytes at a time. */
    method UpdateStream(stream: InputStream)
      requires Valid()
      modifies this, state, count, buffer, stream
      ensures Valid() && finalized == old(finalized) && !stream.good
      ensures message ==
        if !finalized && old(stream.good) then old(message) + Rest(stream.content, old(stream.pos)) else old(message)
    {
      hide Absorb, Compress, Digest, Whole, Tail, Streaming, Slice, Rest;
      var chunk := new byte[1024];
      ghost var from, m, done := stream.pos, message, 0;
      ghost var content := stream.content;
      SliceOfRest(content, from, 0, 1024);
      while stream.good
        invariant Valid() && finalized == old(finalized) && !Owns(chunk)
        invariant 0 <= done <= |Rest(content, from)|
        invariant message == if finalized then m else m + Rest(content, from)[..done]
        invariant stream.good ==> stream.pos == from + done
        invariant old(stream.good) && !stream.good ==> done == |Rest(content, from)|
        invariant !old(stream.good) ==> !stream.good && done == 0
        decreases stream.good, |Rest(content, from)| - done
      {
        SliceOfRest(content, from, done, 1024);
        var n := UpdateChunk(stream, chunk);
        done := done + n;
      }
      assert Rest(content, from)[..|Rest(content, from)|] == Rest(content, from);
    }

    method UpdateChunk(stream: InputStream, chunk: array<byte>) returns (n: nat)
      requires Valid() && stream.good && chunk.Length == 1024 && !Owns(chunk)
      modifies this, state, count, buffer, stream, chunk
      ensures Valid() && finalized == old(finalized)
      ensures n == |Slice(stream.content, old(stream.pos), 1024)|
      ensures message == if finalized then old(message) else old(message) + Slice(stream.content, old(stream.pos), 1024)
      ensures stream.pos == old(stream.pos) + n && stream.good == (n == 1024)
    {
      hide Absorb, Compress, Digest, Whole, Tail, Streaming, Slice;
      var data := stream.Read(1024);
      n := |data|;
      forall i | 0 <= i < n {
        chunk[i] := data[i];
      }
      assert chunk[..n] == data;
      Update(chunk, n);
    }

    /** Pads, appends the length, and leaves the digest in `digest`. */
    method Finalize()
      requires Valid()
      modifies this, state, count, buffer, digest
      ensures Valid() && finalized && message == old(message)
    {
      hide Absorb, Whole, Tail, LengthBytes, Padding, PadLength, Pad, EncodeWords;
      if finalized {
        return;
      }
      ghost var m := message;
      var bits := SavedBits();
      var padding, padLength := PaddingFor();
      PadParts(m);
      PadFillsBlocks(m);
      Update(padding, padLength);
      Update(bits, 8);
      assert bits[..8] == bits[..];
      assert message == Pad(m);
      WholeBlocks(message);
      Encode(digest, state, 16);
      assert state[..4] == [state[0], state[1], state[2], state[3]];
      assert digest[..16] == digest[..];
      buffer[0] := 0;
      finalized := true;
      message := m;
    }

    /** The bytes that pad out to 56 modulo 64. */
    method PaddingFor() returns (padding: array<byte>, padLength: nat)
      requires Shape() && Streaming()
      ensures fresh(padding) && padding.Length == 64
      ensures padLength == PadLength(|message|) && padding[..padLength] == Padding(|message|)
    {
      hide Absorb, Whole, Tail;
      padding := new byte[64](i => if i == 0 then 0x80 else 0);
      CounterIndex(count[0], count[1], |message|);
      var index := count[0] / 8 % 64;
      padLength := if index < 56 then 56 - index else 120 - index;
      PadLengthBranches(|message|, index);
    }

    /** `encode(bits, count, 8)`. */
    method SavedBits() returns (bits: array<byte>)
      requires Shape() && Streaming()
      ensures fresh(bits) && bits.Length == 8 && bits[..] == LengthBytes(|message|)
    {
      hide DecodeWord, EncodeWord, LittleEndian, Absorb;
      var words := new Word[2];
      words[0] := ToWord(count[0]);
      words[1] := ToWord(count[1]);
      bits := new byte[8];
      Encode(bits, words, 8);
      assert words[..] == [ToWord(count[0]), ToWord(count[1])];
      EncodeTwo(ToWord(count[0]), ToWord(count[1]));
      WordEncodeInvertsDecode(LittleEndian(count[0]));
      WordEncodeInvertsDecode(LittleEndian(count[1]));
      CounterIndex(count[0], count[1], |message|);
    }

    /** The constructor from a stream: the digest of all that is left in it. */
    constructor FromStream(stream: InputStream)
      modifies stream
      ensures Valid() && finalized
      ensures message == if old(stream.good) then Rest(stream.content, old(stream.pos)) else []
    {
      state := new Word[4];
      count := new uint4[2];
      buffer := new byte[64];
      digest := new byte[16];
      message := [];
      finalized := false;
      new;
      Init();
      UpdateStream(stream);
      Finalize();
    }

    method RawDigest() returns (r: Result<seq<byte>>)
      requires Valid()
      ensures finalized ==> r == Ok(Digest(message))
      ensures !finalized ==> r.Err?
    {
      if !finalized {
        return Err("MD5::raw_digest:  Can't get digest if you haven't finalized the digest!");
      }
      r := Ok(digest[..]);
    }

    /** Thirty-two hexadecimal digits and a terminating zero. */
    method HexDigest() returns (r: Result<seq<byte>>)
      requires Valid()
      ensures finalized ==> r == Ok(Hex.Text(Digest(message)))
      ensures !finalized ==> r.Err?
    {
      hide Digest, Hex.HighDigit, Hex.LowDigit, Absorb;
      if !finalized {
        return Err("MD5::hex_digest:  Can't get digest if you haven't finalized the digest!");
      }
      var s := new byte[33];
      var i := 0;
      while i < 16
        invariant 0 <= i <= 16
        invariant s[..2 * i] == Hex.Digits(digest[..i])
      {
        s[2 * i], s[2 * i + 1] := Hex.HighDigit(digest[i]), Hex.LowDigit(digest[i]);
        assert digest[..i + 1][..i] == digest[..i];
        assert s[..2 * (i + 1)] == s[..2 * i] + [s[2 * i], s[2 * i + 1]];
        i := i + 1;
      }
      s[32] := 0;
      assert digest[..16] == digest[..];
      assert s[..] == s[..32] + [0];
      r := Ok(s[..]);
    }
  }

  /** What the pieces of a message make together. */
  function Concat(pieces: seq<seq<byte>>): seq<byte> {
    if pieces == [] then [] else Concat(pieces[..|pieces| - 1]) + pieces[|pieces| - 1]
  }

  /** One message, given to `update` in any pieces it can take: only what they make together
      matters. */
  method DigestOfPieces(pieces: seq<seq<byte>>) returns (digest: seq<byte>)
    requires forall i :: 0 <= i < |pieces| ==> |Concat(pieces[..i])| % 64 + |pieces[i]| < TWO_TO_THE_32
    ensures digest == Digest(Concat(pieces))
  {
    hide Digest, Absorb, MD5.Streaming;
    var context := new MD5();
    for i := 0 to |pieces|
      invariant context.Valid() && !context.finalized && fresh(context)
      invariant fresh(context.state) && fresh(context.count) && fresh(context.buffer) && fresh(context.digest)
      invariant context.message == Concat(pieces[..i])
    {
      var piece := pieces[i];
      var input := new byte[|piece|](k requires 0 <= k < |piece| => piece[k]);
      assert input[..|piece|] == piece;
      context.Update(input, |piece|);
      assert pieces[..i + 1][..i] == pieces[..i];
    }
    assert pieces[..|pieces|] == pieces;
    context.Finalize();
    var r := context.RawDigest();
    digest := r.value;
  }

  lemma SliceOfRest(content: seq<byte>, from: nat, done: nat, n: nat)
    requires done <= |Rest(content, from)|
    ensures
      var s := Slice(content, from + done, n);
      && done + |s| <= |Rest(content, from)|
      && Rest(content, from)[..done] + s == Rest(content, from)[..done + |s|]
      && (|s| < n ==> done + |s| == |Rest(content, from)|)
  {
  }

  lemma PadLengthBranches(n: nat, index: nat)
    requires index == n % 64
    ensures PadLength(n) == if index < 56 then 56 - index else 120 - index
  {
  }

  lemma PadParts(m: seq<byte>)
    ensures Pad(m) == m + Padding(|m|) + LengthBytes(|m|)
    ensures |m| % 64 + PadLength(|m|) < TWO_TO_THE_32
  {
    hide LengthBytes, Padding, PadLength;
  }

  lemma EmptyMessage()
    ensures Absorb(INITIAL_STATE, Whole([])) == INITIAL_STATE && Tail([]) == []
  {
    hide Compress;
  }

  lemma WholeBlocks(m: seq<byte>)
    requires |m| % 64 == 0
    ensures Whole(m) == m
  {
  }

  /** What is still to be read. */
  function Rest(content: seq<byte>, pos: nat): seq<byte> {
    if pos < |content| then content[pos..] else []
  }

  // The codecs and copies, in place.

  method Encode(output: array<byte>, input: array<Word>, length: nat)
    requires length % 4 == 0 && length <= output.Length && length <= 4 * input.Length
    modifies output
    ensures output[..length] == EncodeWords(input[..length / 4])
    ensures output[length..] == old(output[length..])
  {
    hide EncodeWord, EncodeWords;
    var i, j := 0, 0;
    EncodeNone();
    while j < length
      invariant j == 4 * i <= length
      invariant output[..j] == EncodeWords(input[..i])
      invariant output[length..] == old(output[length..])
    {
      var bytes := EncodeWord(input[i]);
      EncodeNext(input[..], i);
      output[j], output[j + 1], output[j + 2], output[j + 3] := bytes[0], bytes[1], bytes[2], bytes[3];
      assert output[..j + 4] == output[..j] + bytes;
      i, j := i + 1, j + 4;
    }
  }

  lemma EncodeNone()
    ensures EncodeWords([]) == [] && DecodeWords([]) == []
  {
  }

  lemma EncodeNext(words: seq<Word>, i: nat)
    requires i < |words|
    ensures EncodeWords(words[..i + 1]) == EncodeWords(words[..i]) + EncodeWord(words[i])
  {
    hide EncodeWord;
    assert words[..i + 1][..i] == words[..i];
  }

  lemma DecodeNext(block: seq<byte>, j: nat)
    requires j % 4 == 0 && j + 4 <= |block|
    ensures DecodeWords(block[..j + 4])
         == DecodeWords(block[..j]) + [DecodeWord([block[j], block[j + 1], block[j + 2], block[j + 3]])]
  {
    hide DecodeWord;
    var s := block[..j + 4];
    assert s[..|s| - 4] == block[..j];
    assert s[|s| - 4..] == [block[j], block[j + 1], block[j + 2], block[j + 3]];
  }

  lemma EncodeTwo(w: Word, w': Word)
    ensures EncodeWords([w, w']) == EncodeWord(w) + EncodeWord(w')
  {
    hide EncodeWord;
    assert [w, w'][..1] == [w];
    assert [w][..0] == [];
  }

  method Decode(output: array<Word>, input: array<byte>, at: nat, length: nat)
    requires length % 4 == 0 && at + length <= input.Length && length <= 4 * output.Length
    modifies output
    ensures output[..length / 4] == DecodeWords(input[at..at + length])
  {
    hide DecodeWord, DecodeWords;
    ghost var block := input[at..at + length];
    var i, j := 0, 0;
    EncodeNone();
    while j < length
      invariant j == 4 * i <= length
      invariant output[..i] == DecodeWords(block[..j])
      invariant forall k :: 0 <= k < length ==> input[at + k] == block[k]
    {
      DecodeNext(block, j);
      var word := [input[at + j], input[at + j + 1], input[at + j + 2], input[at + j + 3]];
      assert block[j] == input[at + j] && block[j + 1] == input[at + j + 1];
      assert block[j + 2] == input[at + j + 2] && block[j + 3] == input[at + j + 3];
      output[i] := DecodeWord(word);
      assert output[..i + 1] == output[..i] + [output[i]];
      i, j := i + 1, j + 4;
    }
    assert block[..length] == block;
  }

  method Clear(words: array<Word>)
    modifies words
    ensures forall i :: 0 <= i < words.Length ==> words[i] == 0
  {
    for i := 0 to words.Length
      invariant forall k :: 0 <= k < i ==> words[k] == 0
    {
      words[i] := 0;
    }
  }

  method Memcpy(output: array<byte>, at: nat, input: array<byte>, from: nat, length: nat)
    requires output != input && at + length <= output.Length && from + length <= input.Length
    modifies output
    ensures output[..at] == old(output[..at])
    ensures output[at..at + length] == input[from..from + length]
    ensures output[at + length..] == old(output[at + length..])
  {
    var i := 0;
    while i < length
      invariant i <= length
      invariant output[..at] == old(output[..at])
      invariant output[at..at + i] == input[from..from + i]
      invariant output[at + i..] == old(output[at + i..])
    {
      output[at + i] := input[from + i];
      i := i + 1;
    }
  }

  // The two steps of `update`, on values.

  lemma FirstBlock(m: seq<byte>, filler: seq<byte>)
    requires |filler| == 64 - |m| % 64
    ensures Compress(Absorb(INITIAL_STATE, Whole(m)), Tail(m) + filler) == Absorb(INITIAL_STATE, m + filler)
  {
    var whole, tail := Whole(m), Tail(m);
    WholeAndTail(m);
    hide Compress, Absorb, Whole, Tail;
    AbsorbBlock(INITIAL_STATE, whole, tail + filler);
    assert whole + (tail + filler) == whole + tail + filler;
  }

  lemma NextBlock(m: seq<byte>, data: seq<byte>, index: nat)
    requires (|m| + index) % 64 == 0 && index + 64 <= |data|
    ensures Compress(Absorb(INITIAL_STATE, m + data[..index]), data[index..index + 64])
         == Absorb(INITIAL_STATE, m + data[..index + 64])
  {
    hide Compress, Absorb;
    var block := data[index..index + 64];
    AbsorbBlock(INITIAL_STATE, m + data[..index], block);
    assert m + data[..index] + block == m + data[..index + 64];
  }

  lemma Remainder(m: seq<byte>, data: seq<byte>, bufferIndex: nat, inputIndex: nat)
    requires inputIndex <= |data|
    requires if inputIndex == 0 then bufferIndex == |m| % 64 && |m| % 64 + |data| < 64
             else bufferIndex == 0 && (|m| + inputIndex) % 64 == 0 && |data| < inputIndex + 64
    ensures |m + data| % 64 == bufferIndex + |data| - inputIndex
    ensures inputIndex == 0 ==> data[inputIndex..] == data
    ensures if inputIndex == 0 then Whole(m + data) == Whole(m) && Tail(m + data) == Tail(m) + data
            else Whole(m + data) == m + data[..inputIndex] && Tail(m + data) == data[inputIndex..]
  {
    var done := if inputIndex == 0 then |m| - |m| % 64 else |m| + inputIndex;
    RestModulo(done, |m + data|);
    assert |m + data| - |m + data| % 64 == done;
  }

  lemma RestModulo(done: nat, n: nat)
    requires done % 64 == 0 && done <= n < done + 64
    ensures n % 64 == n - done
  {
  }
}
