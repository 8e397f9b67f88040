/** Bytes, and the UTF-8 form in which Node.js hands a string to a Buffer or a signer. */
module Bytes {

  type byte = x: int | 0 <= x < 256

  /** A character of the 7-bit ASCII range. */
  predicate IsAscii(c: char) {
    c as int < 128
  }

  /** UTF-8 encoding (RFC 3629, section 3) of one Unicode scalar value. */
  function Utf8Char(c: char): (r: seq<byte>)
    ensures 1 <= |r| <= 4
    ensures |r| == 1 <==> IsAscii(c)
    ensures IsAscii(c) ==> r == [c as int]
    ensures 128 <= r[0]  <==> !IsAscii(c)
  {
    var n := c as int;
    if n < 0x80 then [n]
    else if n < 0x800 then [0xC0 + n / 64, 0x80 + n % 64]
    else if n < 0x10000 then [0xE0 + n / 4096, 0x80 + n / 64 % 64, 0x80 + n % 64]
    else [0xF0 + n / 262144, 0x80 + n / 4096 % 64, 0x80 + n / 64 % 64, 0x80 + n % 64]
  }

  /** UTF-8 encoding of a string: `Buffer.from(s)` and `sign.update(s)`. */
  function Utf8(s: string): seq<byte>
  {
    if s == [] then [] else Utf8Char(s[0]) + Utf8(s[1..])
  }

  /** The bytes of an ASCII string are its character codes, one byte per character. */
  lemma {:induction false} Utf8OfAscii(s: string)
    requires forall i :: 0 <= i < |s| ==> IsAscii(s[i])
    ensures |Utf8(s)| == |s|
    ensures forall i :: 0 <= i < |s| ==> Utf8(s)[i] == s[i] as int
  {
    if s != [] {
      Utf8OfAscii(s[1..]);
    }
  }

  /** UTF-8 distributes over concatenation. */
  lemma {:induction false} Utf8Append(s: string, t: string)
    ensures Utf8(s + t) == Utf8(s) + Utf8(t)
  {
    if s == [] {
      assert s + t == t;
    } else {
      assert (s + t)[1..] == s[1..] + t;
      Utf8Append(s[1..], t);
    }
  }
}
