/**
 * The `base64url` helper of both App Store Connect scripts: Node's standard base64
 * (RFC 4648, section 4, with `=` padding) followed by three global replacements that
 * drop every `=`, turn `+` into `-` and `/` into `_`.  The result is the URL-safe
 * alphabet of RFC 4648 section 5 with the padding omitted, as section 3.2 allows.
 */
module Base64Url {
  import opened Bytes
  import opened Wrappers

  /** The value carried by one base64 character. */
  type sextet = x: int | 0 <= x < 64

  /** The standard alphabet (RFC 4648, table 1). */
  function StdChar(v: sextet): char
  {
    if v < 26 then (65 + v) as char
    else if v < 52 then (97 + v - 26) as char
    else if v < 62 then (48 + v - 52) as char
    else if v == 62 then '+'
    else '/'
  }

  /** The URL and filename safe alphabet (RFC 4648, table 2). */
  function UrlChar(v: sextet): char
  {
    if v < 62 then StdChar(v) else if v == 62 then '-' else '_'
  }

  predicate IsUrlChar(c: char) {
    'A' <= c <= 'Z' || 'a' <= c <= 'z' || '0' <= c <= '9' || c == '-' || c == '_'
  }

  /** `Buffer.from(data).toString('base64')`: groups of three bytes become four characters, a short last group is padded with `=`. */
  function StdEncode(b: seq<byte>): string
    decreases |b|
  {
    if |b| == 0 then []
    else if |b| == 1 then [StdChar(b[0] / 4), StdChar(b[0] % 4 * 16), '=', '=']
    else if |b| == 2 then [StdChar(b[0] / 4), StdChar(b[0] % 4 * 16 + b[1] / 16), StdChar(b[1] % 16 * 4), '=']
    else StdGroup(b[0], b[1], b[2]) + StdEncode(b[3..])
  }

  /** Three bytes, as four standard characters. */
  function StdGroup(x: byte, y: byte, z: byte): string
  {
    [StdChar(x / 4), StdChar(x % 4 * 16 + y / 16), StdChar(y % 16 * 4 + z / 64), StdChar(z % 64)]
  }

  /** `s.replace(/c/g, '')` */
  function RemoveAll(s: string, c: char): string
  {
    if s == [] then [] else (if s[0] == c then [] else [s[0]]) + RemoveAll(s[1..], c)
  }

  /** `s.replace(/from/g, to)` for a one-character pattern. */
  function ReplaceAll(s: string, from: char, to: char): string
  {
    if s == [] then [] else [if s[0] == from then to else s[0]] + ReplaceAll(s[1..], from, to)
  }

  /** The script's `base64url(data)`, step by step as written. */
  function Encode(data: seq<byte>): string
  {
    ReplaceAll(ReplaceAll(RemoveAll(StdEncode(data), '='), '+', '-'), '/', '_')
  }

  /** Reference definition: unpadded encoding straight into the URL-safe alphabet. */
  function UrlEncode(b: seq<byte>): string
    decreases |b|
  {
    if |b| == 0 then []
    else if |b| == 1 then [UrlChar(b[0] / 4), UrlChar(b[0] % 4 * 16)]
    else if |b| == 2 then [UrlChar(b[0] / 4), UrlChar(b[0] % 4 * 16 + b[1] / 16), UrlChar(b[1] % 16 * 4)]
    else UrlGroup(b[0], b[1], b[2]) + UrlEncode(b[3..])
  }

  /** Three bytes, as four URL-safe characters. */
  function UrlGroup(x: byte, y: byte, z: byte): string
  {
    [UrlChar(x / 4), UrlChar(x % 4 * 16 + y / 16), UrlChar(y % 16 * 4 + z / 64), UrlChar(z % 64)]
  }

  /** The value of a URL-alphabet character, if it is one. */
  function UrlValue(c: char): (r: Option<sextet>)
    ensures r.Some? <==> IsUrlChar(c)
    ensures r.Some? ==> UrlChar(r.value) == c
  {
    if 'A' <= c <= 'Z' then Some(c as int - 65)
    else if 'a' <= c <= 'z' then Some(c as int - 97 + 26)
    else if '0' <= c <= '9' then Some(c as int - 48 + 52)
    else if c == '-' then Some(62)
    else if c == '_' then Some(63)
    else None
  }

  /** Decoder for unpadded base64url text; a lone trailing character or a foreign character is rejected. */
  function UrlDecode(s: string): Option<seq<byte>>
    decreases |s|
  {
    if |s| < 4 then DecodeTail(s)
    else
      var a :- UrlValue(s[0]);
      var b :- UrlValue(s[1]);
      var c :- UrlValue(s[2]);
      var d :- UrlValue(s[3]);
      var rest :- UrlDecode(s[4..]);
      Some(Unpack(a, b, c, d) + rest)
  }

  /** Four sextets carry three bytes. */
  function Unpack(a: sextet, b: sextet, c: sextet, d: sextet): seq<byte>
  {
    [a * 4 + b / 16, b % 16 * 16 + c / 4, c % 4 * 64 + d]
  }

  /** The final zero to three characters: two carry one byte, three carry two. */
  function DecodeTail(s: string): Option<seq<byte>>
    requires |s| < 4
  {
    if |s| == 0 then Some([])
    else if |s| == 1 then None
    else
      var a :- UrlValue(s[0]);
      var b :- UrlValue(s[1]);
      if |s| == 2 then Some([a * 4 + b / 16])
      else
        var c :- UrlValue(s[2]);
        Some([a * 4 + b / 16, b % 16 * 16 + c / 4])
  }

  // ---------------------------------------------------------------------------
  // Properties

  lemma UrlValueOfUrlChar(v: sextet)
    ensures UrlValue(UrlChar(v)) == Some(v)
  {
  }

  lemma RemoveAllAppend(s: string, t: string, c: char)
    ensures RemoveAll(s + t, c) == RemoveAll(s, c) + RemoveAll(t, c)
  {
    if s == [] {
      assert s + t == t;
    } else {
      assert (s + t)[1..] == s[1..] + t;
    }
  }

  lemma ReplaceAllAppend(s: string, t: string, from: char, to: char)
    ensures ReplaceAll(s + t, from, to) == ReplaceAll(s, from, to) + ReplaceAll(t, from, to)
  {
    if s == [] {
      assert s + t == t;
    } else {
      assert (s + t)[1..] == s[1..] + t;
    }
  }

  /** Helper: the script's three replacements applied to any string. */
  function Pipeline(s: string): string
  {
    ReplaceAll(ReplaceAll(RemoveAll(s, '='), '+', '-'), '/', '_')
  }

  lemma PipelineAppend(s: string, t: string)
    ensures Pipeline(s + t) == Pipeline(s) + Pipeline(t)
  {
    RemoveAllAppend(s, t, '=');
    ReplaceAllAppend(RemoveAll(s, '='), RemoveAll(t, '='), '+', '-');
    ReplaceAllAppend(ReplaceAll(RemoveAll(s, '='), '+', '-'), ReplaceAll(RemoveAll(t, '='), '+', '-'), '/', '_');
  }

  lemma PipelineOne(v: sextet)
    ensures Pipeline([StdChar(v)]) == [UrlChar(v)]
  {
    var c := StdChar(v);
    assert [c][1..] == [];
    assert RemoveAll([c], '=') == [c];
    var c1 := if c == '+' then '-' else c;
    assert ReplaceAll([c], '+', '-') == [c1];
    assert ReplaceAll([c1], '/', '_') == [if c1 == '/' then '_' else c1];
  }

  lemma PipelinePad()
    ensures Pipeline(['=']) == []
  {
    assert ['='][1..] == [];
  }

  /** A group of four characters maps character by character. */
  lemma PipelineFour(a: char, b: char, c: char, d: char)
    ensures Pipeline([a, b, c, d]) == Pipeline([a]) + Pipeline([b]) + Pipeline([c]) + Pipeline([d])
  {
    assert [a, b, c, d] == [a, b, c] + [d];
    assert [a, b, c] == [a, b] + [c];
    assert [a, b] == [a] + [b];
    PipelineAppend([a, b, c], [d]);
    PipelineAppend([a, b], [c]);
    PipelineAppend([a], [b]);
  }

  lemma EncodeOne(b: seq<byte>)
    requires |b| == 1
    ensures Pipeline(StdEncode(b)) == UrlEncode(b)
  {
    var x := b[0];
    assert StdEncode(b) == [StdChar(x / 4), StdChar(x % 4 * 16), '=', '='];
    PipelineFour(StdChar(x / 4), StdChar(x % 4 * 16), '=', '=');
    PipelineOne(x / 4);
    PipelineOne(x % 4 * 16);
    PipelinePad();
  }

  lemma EncodeTwo(b: seq<byte>)
    requires |b| == 2
    ensures Pipeline(StdEncode(b)) == UrlEncode(b)
  {
    var x, y := b[0], b[1];
    assert StdEncode(b) == [StdChar(x / 4), StdChar(x % 4 * 16 + y / 16), StdChar(y % 16 * 4), '='];
    PipelineFour(StdChar(x / 4), StdChar(x % 4 * 16 + y / 16), StdChar(y % 16 * 4), '=');
    PipelineOne(x / 4);
    PipelineOne(x % 4 * 16 + y / 16);
    PipelineOne(y % 16 * 4);
    PipelinePad();
  }

  /** A full group: four standard characters become four URL characters. */
  lemma PipelineGroup(x: byte, y: byte, z: byte)
    ensures Pipeline(StdGroup(x, y, z)) == UrlGroup(x, y, z)
  {
    PipelineFour(StdChar(x / 4), StdChar(x % 4 * 16 + y / 16), StdChar(y % 16 * 4 + z / 64), StdChar(z % 64));
    PipelineOne(x / 4);
    PipelineOne(x % 4 * 16 + y / 16);
    PipelineOne(y % 16 * 4 + z / 64);
    PipelineOne(z % 64);
  }

  /** The script's encoder agrees with the reference definition on every input. */
  lemma {:induction false} EncodeIsUrlEncode(b: seq<byte>)
    ensures Encode(b) == UrlEncode(b)
    decreases |b|
  {
    if |b| == 1 {
      EncodeOne(b);
    } else if |b| == 2 {
      EncodeTwo(b);
    } else if |b| >= 3 {
      PipelineAppend(StdGroup(b[0], b[1], b[2]), StdEncode(b[3..]));
      PipelineGroup(b[0], b[1], b[2]);
      EncodeIsUrlEncode(b[3..]);
    }
  }

  /** The length of the unpadded encoding: four characters per full group, then 0, 2 or 3. */
  function EncodedLength(n: nat): nat
  {
    4 * (n / 3) + (if n % 3 == 0 then 0 else if n % 3 == 1 then 2 else 3)
  }

  lemma {:induction false} EncodeLength(b: seq<byte>)
    ensures |Encode(b)| == EncodedLength(|b|)
  {
    EncodeIsUrlEncode(b);
    UrlEncodeLength(b);
  }

  lemma {:induction false} UrlEncodeLength(b: seq<byte>)
    ensures |UrlEncode(b)| == EncodedLength(|b|)
    decreases |b|
  {
    if |b| > 2 {
      UrlEncodeLength(b[3..]);
    }
  }

  /** Every character of the output is in the URL-safe alphabet: never `=`, `+`, `/` (nor `.`). */
  lemma {:induction false} EncodeAlphabet(b: seq<byte>)
    ensures forall i :: 0 <= i < |Encode(b)| ==> IsUrlChar(Encode(b)[i])
    ensures '=' !in Encode(b) && '+' !in Encode(b) && '/' !in Encode(b) && '.' !in Encode(b)
  {
    EncodeIsUrlEncode(b);
    UrlEncodeAlphabet(b);
  }

  lemma {:induction false} UrlEncodeAlphabet(b: seq<byte>)
    ensures forall i :: 0 <= i < |UrlEncode(b)| ==> IsUrlChar(UrlEncode(b)[i])
    decreases |b|
  {
    if |b| > 2 {
      UrlEncodeAlphabet(b[3..]);
    }
  }

  /** Decoding undoes the encoding. */
  lemma {:induction false} DecodeEncode(b: seq<byte>)
    ensures UrlDecode(Encode(b)) == Some(b)
  {
    EncodeIsUrlEncode(b);
    DecodeUrlEncode(b);
  }

  lemma UnpackGroup(x: byte, y: byte, z: byte)
    ensures Unpack(x / 4, x % 4 * 16 + y / 16, y % 16 * 4 + z / 64, z % 64) == [x, y, z]
  {
    assert (x % 4 * 16 + y / 16) / 16 == x % 4;
    assert (x % 4 * 16 + y / 16) % 16 == y / 16;
    assert (y % 16 * 4 + z / 64) / 4 == y % 16;
    assert (y % 16 * 4 + z / 64) % 4 == z / 64;
  }

  /** One trailing byte travels in two characters and comes back. */
  lemma DecodeTailOne(x: byte)
    ensures DecodeTail([UrlChar(x / 4), UrlChar(x % 4 * 16)]) == Some([x])
  {
    var a: sextet, b: sextet := x / 4, x % 4 * 16;
    UrlValueOfUrlChar(a);
    UrlValueOfUrlChar(b);
    assert a * 4 + b / 16 == x;
  }

  /** Two trailing bytes travel in three characters and come back. */
  lemma DecodeTailTwo(x: byte, y: byte)
    ensures DecodeTail([UrlChar(x / 4), UrlChar(x % 4 * 16 + y / 16), UrlChar(y % 16 * 4)]) == Some([x, y])
  {
    var a: sextet, b: sextet, c: sextet := x / 4, x % 4 * 16 + y / 16, y % 16 * 4;
    UrlValueOfUrlChar(a);
    UrlValueOfUrlChar(b);
    UrlValueOfUrlChar(c);
    assert b / 16 == x % 4 && b % 16 == y / 16 && c / 4 == y % 16;
    assert a * 4 + b / 16 == x && b % 16 * 16 + c / 4 == y;
  }

  /** A group of four URL characters decodes to its three bytes, ahead of whatever the rest decodes to. */
  lemma DecodeGroup(x: byte, y: byte, z: byte, t: string)
    ensures UrlDecode(UrlGroup(x, y, z) + t) == if UrlDecode(t).Some? then Some([x, y, z] + UrlDecode(t).value) else None
  {
    var a: sextet, b: sextet, c: sextet, d: sextet := x / 4, x % 4 * 16 + y / 16, y % 16 * 4 + z / 64, z % 64;
    var s := UrlGroup(x, y, z) + t;
    assert s[..4] == [UrlChar(a), UrlChar(b), UrlChar(c), UrlChar(d)] && s[4..] == t;
    UrlValueOfUrlChar(a);
    UrlValueOfUrlChar(b);
    UrlValueOfUrlChar(c);
    UrlValueOfUrlChar(d);
    assert Unpack(a, b, c, d) == [x, y, z] by {
      UnpackGroup(x, y, z);
    }
  }

  /** One last byte decodes back. */
  lemma DecodeOneEncode(b: seq<byte>)
    requires |b| == 1
    ensures UrlDecode(UrlEncode(b)) == Some(b)
  {
    var x := b[0];
    var t := UrlEncode(b);
    assert t == [UrlChar(x / 4), UrlChar(x % 4 * 16)];
    assert UrlDecode(t) == DecodeTail(t);
    DecodeTailOne(x);
    assert b == [x];
  }

  /** Two last bytes decode back. */
  lemma DecodeTwoEncode(b: seq<byte>)
    requires |b| == 2
    ensures UrlDecode(UrlEncode(b)) == Some(b)
  {
    var x, y := b[0], b[1];
    var t := UrlEncode(b);
    assert t == [UrlChar(x / 4), UrlChar(x % 4 * 16 + y / 16), UrlChar(y % 16 * 4)];
    assert UrlDecode(t) == DecodeTail(t);
    DecodeTailTwo(x, y);
    assert b == [x, y];
  }

  /** A short last group, zero to two bytes, decodes back. */
  lemma DecodeShortEncode(b: seq<byte>)
    requires |b| <= 2
    ensures UrlDecode(UrlEncode(b)) == Some(b)
  {
    if |b| == 1 {
      DecodeOneEncode(b);
    } else if |b| == 2 {
      DecodeTwoEncode(b);
    }
  }

  lemma {:induction false} DecodeUrlEncode(b: seq<byte>)
    ensures UrlDecode(UrlEncode(b)) == Some(b)
    decreases |b|
  {
    if |b| <= 2 {
      DecodeShortEncode(b);
    } else {
      var t := UrlEncode(b[3..]);
      assert UrlEncode(b) == UrlGroup(b[0], b[1], b[2]) + t;
      DecodeUrlEncode(b[3..]);
      DecodeGroup(b[0], b[1], b[2], t);
      assert b == [b[0], b[1], b[2]] + b[3..];
    }
  }
}
