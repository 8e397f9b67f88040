/**
 * The JavaScript reading of parsed JSON that the App Store Connect scripts rely on:
 * truthiness, property access (which throws a TypeError on `undefined` and `null`),
 * optional indexing `v?.[0]`, `for ... of` iteration, `slice`, and the conversions to text
 * (template literals) and to a number (`v > 0`), which throw on an object that `JSON.parse`
 * gave its own `toString` key.
 */
module Js {
  import opened Wrappers
  import opened JsonData
  import TextScan

  /** A JavaScript value read out of a parsed document: a JSON value, or `undefined`. */
  datatype Value = Undefined | Defined(json: Json)

  /** `Boolean(v)`: `undefined`, `null`, `false`, `0` and `""` are falsy; arrays and objects, even empty ones, are truthy. */
  predicate Truthy(v: Value) {
    match v
    case Undefined => false
    case Defined(j) =>
      match j
      case Null => false
      case Bool(b) => b
      case Num(n) => n != 0
      case Str(s) => s != []
      case Arr(_) => true
      case Obj(_) => true
  }

  /** `undefined` or `null`, the two values whose properties cannot be read. */
  predicate IsNullish(v: Value) {
    v == Undefined || v == Defined(Null)
  }

  /**
   * `v.k` for the non-numeric keys the scripts read: `None` is the TypeError thrown for `undefined`
   * and `null`; arrays and strings have only `length` (a string's counts UTF-16 code units);
   * other primitives have no such property.
   */
  function Get(v: Value, k: string): (r: Option<Value>)
    ensures r.None? <==> IsNullish(v)
  {
    match v
    case Undefined => None
    case Defined(j) =>
      match j
      case Null => None
      case Obj(ms) => Some(match Find(ms, k) case None => Undefined case Some(x) => Defined(x))
      case Arr(items) => Some(if k == "length" then Defined(Num(|items|)) else Undefined)
      case Str(s) => Some(if k == "length" then Defined(Num(Utf16Length(s))) else Undefined)
      case _ => Some(Undefined)
  }

  /** `v[0]` on a value whose properties can be read: the first element of an array, the first code unit of a string (a lone surrogate shows as U+FFFD), or member `"0"` of an object. */
  function Index0(v: Value): Value
  {
    match v
    case Defined(Arr(items)) => if items == [] then Undefined else Defined(items[0])
    case Defined(Str(s)) => if s == [] then Undefined else Defined(Str([if Utf16Units(s[0]) == 1 then s[0] else Replacement]))
    case Defined(Obj(ms)) => (match Find(ms, "0") case None => Undefined case Some(x) => Defined(x))
    case _ => Undefined
  }

  /** `v?.[0]`: `undefined` when `v` is `undefined` or `null`, and `v[0]` otherwise; it never throws. */
  function First(v: Value): Value
  {
    if IsNullish(v) then Undefined else Index0(v)
  }

  /** `v?.k`: `undefined` when `v` is `undefined` or `null`, and `v.k` otherwise. */
  function OptGet(v: Value, k: string): Value
  {
    match Get(v, k) case None => Undefined case Some(x) => x
  }

  /** The elements `for (const x of v)` visits: array items, or the characters of a string; `None` is the TypeError for anything else. */
  function Elements(v: Value): (r: Option<seq<Value>>)
    ensures r.Some? ==> forall i :: 0 <= i < |r.value| ==> r.value[i].Defined?
  {
    match v
    case Defined(Arr(items)) => Some(seq(|items|, i requires 0 <= i < |items| => Defined(items[i])))
    case Defined(Str(s)) => Some(seq(|s|, i requires 0 <= i < |s| => Defined(Str([s[i]]))))
    case _ => None
  }

  /** A JavaScript number as far as this model reads it: an integer, one of the two infinities, or NaN. */
  datatype Number = Finite(n: int) | PlusInfinity | MinusInfinity | NaN

  predicate AllDigits(s: string) {
    forall i :: 0 <= i < |s| ==> '0' <= s[i] <= '9'
  }

  /** The value of a run of decimal digits. */
  function DigitsValue(s: string): nat
    requires AllDigits(s)
  {
    if s == [] then 0 else 10 * DigitsValue(s[..|s| - 1]) + (s[|s| - 1] as int - '0' as int)
  }

  /** An unsigned numeric literal: decimal digits or `Infinity`; anything else is NaN. */
  function UnsignedNumber(t: string): Number
  {
    if t == "Infinity" then PlusInfinity
    else if t != [] && AllDigits(t) then Finite(DigitsValue(t))
    else NaN
  }

  /**
   * `Number(s)`: surrounding whitespace is ignored, the empty string is 0, and an optional sign
   * may precede the literal.
   */
  function StringToNumber(s: string): Number
  {
    var t := TextScan.Trim(s);
    if t == [] then Finite(0)
    else if t[0] == '+' then UnsignedNumber(t[1..])
    else if t[0] == '-' then
      match UnsignedNumber(t[1..])
      case Finite(n) => Finite(-n)
      case PlusInfinity => MinusInfinity
      case _ => NaN
    else UnsignedNumber(t)
  }

  /**
   * `ToNumber(v)`, as `v > 0` applies it: `undefined` is NaN, `null` is 0, a boolean is 0 or 1,
   * and a string, array or object is first turned into its text (`String(v)`); `None` is the
   * TypeError of a value that has no text.
   */
  function ToNumber(v: Value): Option<Number>
  {
    match v
    case Undefined => Some(NaN)
    case Defined(j) =>
      match j
      case Null => Some(Finite(0))
      case Bool(b) => Some(Finite(if b then 1 else 0))
      case Num(n) => Some(Finite(n))
      case _ =>
        match JsonText(j)
        case None => None
        case Some(t) => Some(StringToNumber(t))
  }

  /** `v > 0`: whether the number `v` converts to is above zero (NaN is not); `None` is the TypeError of the conversion. */
  function AboveZero(v: Value): Option<bool>
  {
    match ToNumber(v)
    case None => None
    case Some(Finite(n)) => Some(n > 0)
    case Some(PlusInfinity) => Some(true)
    case Some(_) => Some(false)
  }

  /** How many UTF-16 code units a character takes: two beyond the Basic Multilingual Plane. */
  function Utf16Units(c: char): nat
  {
    if c as int < 0x1_0000 then 1 else 2
  }

  /** The `length` of a JavaScript string: its UTF-16 code units. */
  function Utf16Length(s: string): nat
  {
    if s == [] then 0 else Utf16Units(s[0]) + Utf16Length(s[1..])
  }

  /** What a lone surrogate is written as when the string is printed. */
  const Replacement: char := '\U{FFFD}'

  /**
   * `s.slice(0, n)`, which counts UTF-16 code units: the characters that fit in `n` units, and,
   * when the n-th unit is the first half of a surrogate pair, that lone half, shown as U+FFFD.
   */
  function Utf16Prefix(s: string, n: nat): (r: string)
    ensures s != [] && n > 0 ==> r != []
  {
    if s == [] || n == 0 then []
    else if Utf16Units(s[0]) <= n then [s[0]] + Utf16Prefix(s[1..], n - Utf16Units(s[0]))
    else [Replacement]
  }

  /** `v?.slice(0, n)`: a string keeps its first `n` code units, an array its first `n` items; `None` is the TypeError for a value without `slice`. */
  function OptSlice(v: Value, n: nat): (r: Option<Value>)
    ensures r.None? <==> !IsNullish(v) && !(v.json.Str? || v.json.Arr?)
  {
    match v
    case Undefined => Some(Undefined)
    case Defined(j) =>
      match j
      case Null => Some(Undefined)
      case Str(s) => Some(Defined(Str(Utf16Prefix(s, n))))
      case Arr(items) => Some(Defined(Arr(if |items| <= n then items else items[..n])))
      case _ => None
  }

  /** The decimal digits of a natural number. */
  function NatText(n: nat): (t: string)
    ensures |t| >= 1
    ensures forall i :: 0 <= i < |t| ==> '0' <= t[i] <= '9'
  {
    if n < 10 then [(48 + n) as char] else NatText(n / 10) + [(48 + n % 10) as char]
  }

  /** `String(n)` for an integer. */
  function IntText(n: int): string
  {
    if n < 0 then "-" + NatText(-n) else NatText(n)
  }

  /**
   * An object that `JSON.parse` gave its own `toString` key: that data property shadows
   * `Object.prototype.toString` and cannot be called, and `valueOf` gives back the object, so
   * converting the object to text or to a number throws a TypeError.
   */
  predicate OwnToString(members: seq<Member>) {
    Find(members, "toString").Some?
  }

  /** `${v}` in a template literal; `None` is the TypeError of a value that has no text. */
  function Text(v: Value): Option<string>
  {
    match v
    case Undefined => Some("undefined")
    case Defined(j) => JsonText(j)
  }

  /** `String(j)`: an array joins its items with commas, an object is `[object Object]` unless it has its own `toString`. */
  function JsonText(j: Json): Option<string>
  {
    match j
    case Null => Some("null")
    case Bool(b) => Some(if b then "true" else "false")
    case Num(n) => Some(IntText(n))
    case Str(s) => Some(s)
    case Arr(items) => JoinText(items)
    case Obj(members) => if OwnToString(members) then None else Some("[object Object]")
  }

  /** `items.join(",")`: `null` items become empty, the others are converted left to right. */
  function JoinText(items: seq<Json>): Option<string>
    decreases items, 0
  {
    if items == [] then Some([])
    else
      var head := if items[0] == Null then Some("") else JsonText(items[0]);
      match head
      case None => None
      case Some(h) =>
        if |items| == 1 then Some(h)
        else
          match JoinText(items[1..])
          case None => None
          case Some(t) => Some(h + "," + t)
  }

  // ---------------------------------------------------------------------------
  // Properties

  /** The digits of a natural number read back as that number. */
  lemma {:induction false} DigitsOfNatText(n: nat)
    ensures AllDigits(NatText(n)) && DigitsValue(NatText(n)) == n
  {
    if n >= 10 {
      DigitsOfNatText(n / 10);
      var t := NatText(n);
      assert t[..|t| - 1] == NatText(n / 10);
    }
  }

  /** `Number(String(n)) == n` for every integer. */
  lemma NumberOfIntText(n: int)
    ensures StringToNumber(IntText(n)) == Finite(n)
  {
    var t := IntText(n);
    DigitsOfNatText(if n < 0 then -n else n);
    TextScan.TrimUnchanged(t);
    if n < 0 {
      assert t[1..] == NatText(-n);
    }
  }

  /**
   * `v > 0` for the values that are not text: a number by its sign, `true` only among booleans,
   * never `undefined` or `null`; an object is never above zero, and the comparison throws
   * exactly when the object has its own `toString`.
   */
  lemma AboveZeroKinds(v: Value)
    ensures v.Defined? && v.json.Num? ==> AboveZero(v) == Some(v.json.n > 0)
    ensures v.Defined? && v.json.Bool? ==> AboveZero(v) == Some(v.json.b)
    ensures v == Undefined || v == Defined(Null) ==> AboveZero(v) == Some(false)
    ensures v.Defined? && v.json.Obj? ==> AboveZero(v) == if OwnToString(v.json.members) then None else Some(false)
  {
    if v.Defined? && v.json.Obj? && !OwnToString(v.json.members) {
      TextScan.TrimUnchanged("[object Object]");
    }
  }

  /** A string spelling an integer is above zero exactly when the integer is. */
  lemma AboveZeroText(n: int)
    ensures AboveZero(Defined(Str(IntText(n)))) == Some(n > 0)
  {
    NumberOfIntText(n);
  }

  /**
   * Which values have no text: an object with its own `toString`, and an array holding such a
   * value among its items, however deeply; every other value converts.
   */
  lemma TextFails(j: Json)
    ensures j.Obj? ==> (JsonText(j).None? <==> OwnToString(j.members))
    ensures j.Arr? ==> (JsonText(j).None? <==> exists i :: 0 <= i < |j.items| && JsonText(j.items[i]).None?)
    ensures !j.Obj? && !j.Arr? ==> JsonText(j).Some?
  {
    if j.Arr? {
      JoinTextFails(j.items);
    }
  }

  /** `join` throws exactly when one of the items has no text. */
  lemma {:induction false} JoinTextFails(items: seq<Json>)
    ensures JoinText(items).None? <==> exists i :: 0 <= i < |items| && JsonText(items[i]).None?
  {
    if items != [] {
      JoinTextFails(items[1..]);
      assert forall i :: 1 <= i < |items| ==> items[1..][i - 1] == items[i];
    }
  }

  /**
   * A slice is at most `n` code units long.  It is a prefix of the string, except that a surrogate
   * pair cut in half leaves U+FFFD in place of its last character.  A string that fits is kept whole.
   */
  lemma {:induction false} Utf16PrefixShape(s: string, n: nat)
    ensures var r := Utf16Prefix(s, n);
            && Utf16Length(r) <= n
            && |r| <= |s|
            && (r == s[..|r|] || (r == s[..|r| - 1] + [Replacement] && Utf16Units(s[|r| - 1]) == 2))
            && (Utf16Length(s) <= n ==> r == s)
  {
    if s != [] && n > 0 {
      if Utf16Units(s[0]) <= n {
        Utf16PrefixShape(s[1..], n - Utf16Units(s[0]));
        var rest := Utf16Prefix(s[1..], n - Utf16Units(s[0]));
        var r := Utf16Prefix(s, n);
        assert r == [s[0]] + rest;
        assert r[1..] == rest;
        if rest == s[1..][..|rest|] {
          assert r == s[..|r|];
        } else {
          assert r == s[..|r| - 1] + [Replacement];
        }
      } else {
        assert Utf16Length(s) > n;
      }
    }
  }

  /** On text within the Basic Multilingual Plane, code units are characters, so the slice keeps the first `n` characters. */
  lemma {:induction false} Utf16PrefixBmp(s: string, n: nat)
    requires forall i :: 0 <= i < |s| ==> s[i] as int < 0x1_0000
    ensures Utf16Prefix(s, n) == if |s| <= n then s else s[..n]
  {
    if s != [] && n > 0 {
      Utf16PrefixBmp(s[1..], n - 1);
      if |s| > n {
        assert s[..n] == [s[0]] + s[1..][..n - 1];
      } else {
        assert s == [s[0]] + s[1..];
      }
    }
  }

  /** A truthy value is neither `undefined` nor `null`, so reading a property of it never throws. */
  lemma TruthyReadable(v: Value, k: string)
    ensures Truthy(v) ==> Get(v, k).Some?
  {
  }

  /** The optional index of an array is its first item, when there is one, and `undefined` when it is empty. */
  lemma FirstOfArray(items: seq<Json>)
    ensures First(Defined(Arr(items))) == if items == [] then Undefined else Defined(items[0])
  {
  }
}
