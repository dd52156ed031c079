/**
 The printed form of a digest: `sprintf("%02x")` of each byte, and its order under `memcmp`.
 */
module Hex {
  import opened Bytes

  /** The ASCII code of a hexadecimal digit, lower case. */
  function Digit(n: byte): byte
    requires n < 16
  {
    if n < 10 then 48 + n else 87 + n
  }

  /** What a digit stands for, read back: '0' is 48 and 'a' is 97. */
  function Value(c: byte): byte {
    if 48 <= c <= 57 then c - 48 else if 97 <= c <= 102 then c - 97 + 10 else 0
  }

  function HighDigit(b: byte): byte {
    Digit(b >> 4)
  }

  function LowDigit(b: byte): byte {
    Digit(b & 0xf)
  }

  function Digits(s: seq<byte>): (t: seq<byte>)
    ensures |t| == 2 * |s|
  {
    if s == [] then [] else Digits(s[..|s| - 1]) + [HighDigit(s[|s| - 1]), LowDigit(s[|s| - 1])]
  }

  /** With the terminating zero. */
  function Text(s: seq<byte>): (t: seq<byte>)
    ensures |t| == 2 * |s| + 1
  {
    Digits(s) + [0]
  }

  /** The sign that `memcmp` returns for two areas of the same length. */
  function Memcmp(s: seq<byte>, t: seq<byte>): (r: int)
    requires |s| == |t|
  {
    if s == [] then 0 else Decide(s[0], t[0], Memcmp(s[1..], t[1..]))
  }

  /** The first difference decides. */
  function Decide(x: byte, y: byte, otherwise: int): int {
    if x < y then -1 else if y < x then 1 else otherwise
  }

  lemma {:induction false} MemcmpZero(s: seq<byte>, t: seq<byte>)
    requires |s| == |t|
    ensures Memcmp(s, t) == 0 <==> s == t
  {
    if s == [] {
    } else if s[0] == t[0] {
      MemcmpZero(s[1..], t[1..]);
      assert s == [s[0]] + s[1..] && t == [t[0]] + t[1..];
    }
  }

  lemma {:induction false} MemcmpAntisymmetric(s: seq<byte>, t: seq<byte>)
    requires |s| == |t|
    ensures Memcmp(s, t) == -Memcmp(t, s)
  {
    if s == [] {
    } else {
      MemcmpAntisymmetric(s[1..], t[1..]);
    }
  }

  lemma {:induction false} MemcmpTransitive(s: seq<byte>, t: seq<byte>, u: seq<byte>)
    requires |s| == |t| == |u|
    requires Memcmp(s, t) <= 0 && Memcmp(t, u) <= 0
    ensures Memcmp(s, u) <= 0
    ensures Memcmp(s, u) == 0 ==> Memcmp(s, t) == 0 && Memcmp(t, u) == 0
  {
    if s == [] {
    } else if s[0] == t[0] && t[0] == u[0] {
      MemcmpTransitive(s[1..], t[1..], u[1..]);
    }
  }

  /** `s` comes first where they first differ. */
  predicate DiffersAt(s: seq<byte>, t: seq<byte>, k: nat)
    requires |s| == |t|
  {
    k < |s| && s[..k] == t[..k] && s[k] < t[k]
  }

  /** The sign is that of the first difference, bytes compared as unsigned numbers. */
  lemma {:induction false} MemcmpFirst(s: seq<byte>, t: seq<byte>)
    requires |s| == |t|
    ensures Memcmp(s, t) < 0 <==> exists k :: DiffersAt(s, t, k)
  {
    if s == [] {
    } else {
      MemcmpFirst(s[1..], t[1..]);
      if Memcmp(s, t) < 0 {
        if s[0] < t[0] {
          assert DiffersAt(s, t, 0);
        } else {
          var k :| DiffersAt(s[1..], t[1..], k);
          FirstShifts(s, t, k);
        }
      }
      if k: nat :| k > 0 && DiffersAt(s, t, k) {
        FirstShifts(s, t, k - 1);
      }
    }
  }

  lemma FirstShifts(s: seq<byte>, t: seq<byte>, k: nat)
    requires |s| == |t| && s != []
    ensures DiffersAt(s, t, k + 1) <==> s[0] == t[0] && DiffersAt(s[1..], t[1..], k)
  {
    if k < |s| - 1 {
      assert s[..k + 1] == [s[0]] + s[1..][..k] && t[..k + 1] == [t[0]] + t[1..][..k];
      assert s[1..][..k] == s[..k + 1][1..] && t[1..][..k] == t[..k + 1][1..];
    }
  }

  lemma {:induction false} DigitsOfHead(s: seq<byte>)
    requires s != []
    ensures Digits(s) == [HighDigit(s[0]), LowDigit(s[0])] + Digits(s[1..])
  {
    hide HighDigit, LowDigit;
    if |s| == 1 {
    } else {
      var front, last := s[..|s| - 1], s[|s| - 1];
      DigitsOfHead(front);
      assert front[1..] == s[1..][..|s[1..]| - 1];
    }
  }

  /** The two digits of a byte order the way the byte does. */
  lemma DigitsOrder(x: byte, y: byte)
    ensures x < y <==> HighDigit(x) < HighDigit(y) || (HighDigit(x) == HighDigit(y) && LowDigit(x) < LowDigit(y))
  {
  }

  lemma DigitsDecide(x: byte, y: byte, otherwise: int)
    ensures Decide(HighDigit(x), HighDigit(y), Decide(LowDigit(x), LowDigit(y), otherwise)) == Decide(x, y, otherwise)
  {
    hide HighDigit, LowDigit;
    DigitsOrder(x, y);
    DigitsOrder(y, x);
  }

  lemma MemcmpHead(x: byte, y: byte, s: seq<byte>, t: seq<byte>)
    requires |s| == |t|
    ensures Memcmp([x] + s, [y] + t) == Decide(x, y, Memcmp(s, t))
  {
    assert ([x] + s)[1..] == s && ([y] + t)[1..] == t;
  }

  lemma TextOfHead(s: seq<byte>)
    requires s != []
    ensures Text(s) == [HighDigit(s[0])] + ([LowDigit(s[0])] + Text(s[1..]))
  {
    hide HighDigit, LowDigit;
    DigitsOfHead(s);
  }

  /** Comparing printed digests is comparing the digests. */
  lemma {:induction false} TextOrder(s: seq<byte>, t: seq<byte>)
    requires |s| == |t|
    ensures Memcmp(Text(s), Text(t)) == Memcmp(s, t)
  {
    hide HighDigit, LowDigit, Digits, Text, Memcmp, Decide;
    if s == [] {
      assert s == t;
      MemcmpZero(s, t);
      MemcmpZero(Text(s), Text(t));
    } else {
      TextOfHead(s);
      TextOfHead(t);
      TextOrder(s[1..], t[1..]);
      MemcmpHead(HighDigit(s[0]), HighDigit(t[0]), [LowDigit(s[0])] + Text(s[1..]), [LowDigit(t[0])] + Text(t[1..]));
      MemcmpHead(LowDigit(s[0]), LowDigit(t[0]), Text(s[1..]), Text(t[1..]));
      DigitsDecide(s[0], t[0], Memcmp(s[1..], t[1..]));
      assert s == [s[0]] + s[1..] && t == [t[0]] + t[1..];
      MemcmpHead(s[0], t[0], s[1..], t[1..]);
    }
  }

  /** The bytes that a sequence of digits prints. */
  function Parse(t: seq<byte>): seq<byte>
    requires |t| % 2 == 0
  {
    if t == [] then [] else Parse(t[..|t| - 2]) + [(Value(t[|t| - 2]) << 4) | Value(t[|t| - 1])]
  }

  lemma ParseByte(b: byte)
    ensures (Value(HighDigit(b)) << 4) | Value(LowDigit(b)) == b
  {
  }

  lemma ParseSnoc(t: seq<byte>, high: byte, low: byte)
    requires |t| % 2 == 0
    ensures Parse(t + [high, low]) == Parse(t) + [(Value(high) << 4) | Value(low)]
  {
    hide Value;
    assert (t + [high, low])[..|t|] == t;
  }

  /** Reading the digits back as hexadecimal numbers yields the digest. */
  lemma {:induction false} ParseInvertsDigits(s: seq<byte>)
    ensures Parse(Digits(s)) == s
  {
    hide HighDigit, LowDigit, Value, Parse;
    if s == [] {
      ParseNone();
    } else {
      var front, last := s[..|s| - 1], s[|s| - 1];
      ParseInvertsDigits(front);
      ParseSnoc(Digits(front), HighDigit(last), LowDigit(last));
      ParseByte(last);
      assert s == front + [last];
    }
  }

  lemma ParseNone()
    ensures Parse([]) == []
  {
  }

  /** Different digests have different texts. */
  lemma TextInjective(s: seq<byte>, t: seq<byte>)
    requires |s| == |t| && Text(s) == Text(t)
    ensures s == t
  {
    hide Digits, Parse;
    assert Digits(s) == Text(s)[..|Text(s)| - 1];
    assert Digits(t) == Text(t)[..|Text(t)| - 1];
    ParseInvertsDigits(s);
    ParseInvertsDigits(t);
  }
}
