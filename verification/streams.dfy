/**
 The two file streams of the program.  An `InputStream` is a `std::ifstream`: once a read comes
 up short it is no longer good, and from then on neither seeking nor reading has any effect.
 `WriteAt` is `seekp` followed by `write` on a binary `std::ofstream`: writing past the end of
 the file fills the gap with zeros.
 */
module Streams {
  import opened Bytes

  /** The bytes of `content` in positions `at` to `at + n`, as far as they exist. */
  function Slice(content: seq<byte>, at: nat, n: nat): (s: seq<byte>)
    ensures |s| <= n
    ensures |s| == n <==> n == 0 || at + n <= |content|
  {
    if at >= |content| then [] else content[at..Min(at + n, |content|)]
  }

  function WriteAt(file: seq<byte>, at: nat, data: seq<byte>): (f: seq<byte>)
    ensures data == [] ==> f == file
    ensures data != [] ==> |f| == if |file| < at + |data| then at + |data| else |file|
    ensures forall k {:trigger f[k]} :: 0 <= k < |f| ==>
      f[k] == if at <= k < at + |data| then data[k - at] else if k < |file| then file[k] else 0
  {
    if data == [] then file
    else
      var padded := if |file| < at then file + Zeros(at - |file|) else file;
      padded[..at] + data + (if at + |data| < |padded| then padded[at + |data|..] else [])
  }

  class InputStream {
    const content: seq<byte>
    var pos: nat
    var good: bool

    constructor (content: seq<byte>)
      ensures this.content == content && pos == 0 && good
    {
      this.content := content;
      pos, good := 0, true;
    }

    /** `seekg`. */
    method Seek(at: nat)
      modifies this
      ensures good == old(good)
      ensures pos == if good then at else old(pos)
    {
      if good {
        pos := at;
      }
    }

    /** `read`, returning the bytes that `gcount` counts. */
    method Read(n: nat) returns (data: seq<byte>)
      modifies this
      ensures data == if old(good) then Slice(content, old(pos), n) else []
      ensures pos == old(pos) + |data|
      ensures good == (old(good) && |data| == n)
    {
      if good {
        data := Slice(content, pos, n);
        pos := pos + |data|;
        good := |data| == n;
      } else {
        data := [];
      }
    }
  }
}
