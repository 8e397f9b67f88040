/**
 * Character-level search primitives the metadata extractor is built from: substring
 * search, whitespace skipping and `String.prototype.trim`.  Whitespace is the ASCII set
 * space, tab, line feed, vertical tab, form feed and carriage return; it is the same set
 * for the regular-expression class `\s` and for `trim`.
 */
module TextScan {
  import opened Wrappers

  predicate IsSpace(c: char) {
    c == ' ' || '\t' <= c <= '\r'
  }

  /** `pat` occurs in `s` starting at `i`. */
  predicate HasAt(s: string, pat: string, i: int) {
    0 <= i && i + |pat| <= |s| && forall k :: 0 <= k < |pat| ==> s[i + k] == pat[k]
  }

  ghost predicate Contains(s: string, pat: string) {
    exists i :: HasAt(s, pat, i)
  }

  /** The position of the first occurrence of `pat` in `s` at or after `from`, as `indexOf` computes it. */
  function IndexOf(s: string, pat: string, from: nat): (r: Option<nat>)
    ensures r.Some? ==> from <= r.value && r.value + |pat| <= |s|
    decreases |s| - from
  {
    if from + |pat| > |s| then None
    else if HasAt(s, pat, from) then Some(from)
    else IndexOf(s, pat, from + 1)
  }

  /** `IndexOf` finds an occurrence, no earlier one, and nothing only when there is none. */
  lemma {:induction false} IndexOfSpec(s: string, pat: string, from: nat)
    ensures var r := IndexOf(s, pat, from);
            && (r.Some? ==> HasAt(s, pat, r.value))
            && (r.Some? ==> forall i :: from <= i < r.value ==> !HasAt(s, pat, i))
            && (r.None? ==> forall i :: from <= i ==> !HasAt(s, pat, i))
    decreases |s| - from
  {
    if from + |pat| <= |s| && !HasAt(s, pat, from) {
      IndexOfSpec(s, pat, from + 1);
    }
  }

  /** The first occurrence at or after `from` is the one `IndexOf` finds. */
  lemma IndexOfAt(s: string, pat: string, from: nat, i: int)
    requires from <= i && HasAt(s, pat, i)
    requires forall p :: from <= p < i ==> !HasAt(s, pat, p)
    ensures IndexOf(s, pat, from) == Some(i)
  {
    IndexOfSpec(s, pat, from);
  }

  /** A one-character pattern occurs exactly where that character stands. */
  lemma HasAtChar(s: string, c: char, i: int)
    ensures HasAt(s, [c], i) <==> 0 <= i < |s| && s[i] == c
  {
    if HasAt(s, [c], i) {
      assert s[i + 0] == [c][0];
    }
  }

  /** The first index at or after `from` whose character is not whitespace, or `|s|`. */
  function SkipSpace(s: string, from: nat): (m: nat)
    requires from <= |s|
    ensures from <= m <= |s|
    decreases |s| - from
  {
    if from < |s| && IsSpace(s[from]) then SkipSpace(s, from + 1) else from
  }

  /** `SkipSpace` stops at the first character that is not whitespace. */
  lemma {:induction false} SkipSpaceSpec(s: string, from: nat)
    requires from <= |s|
    ensures var m := SkipSpace(s, from);
            && (forall p :: from <= p < m ==> IsSpace(s[p]))
            && (m < |s| ==> !IsSpace(s[m]))
    decreases |s| - from
  {
    if from < |s| && IsSpace(s[from]) {
      SkipSpaceSpec(s, from + 1);
    }
  }

  /** A character of the class `[^\s|]`. */
  predicate IsTokenChar(c: char) {
    !IsSpace(c) && c != '|'
  }

  /** The end of the longest run of `[^\s|]` characters starting at `from`. */
  function TokenEnd(s: string, from: nat): (e: nat)
    requires from <= |s|
    ensures from <= e <= |s|
    ensures from < |s| && IsTokenChar(s[from]) ==> from < e
    decreases |s| - from
  {
    if from < |s| && IsTokenChar(s[from]) then TokenEnd(s, from + 1) else from
  }

  /** `TokenEnd` stops at the first character outside `[^\s|]`. */
  lemma {:induction false} TokenEndSpec(s: string, from: nat)
    requires from <= |s|
    ensures var e := TokenEnd(s, from);
            && (forall p :: from <= p < e ==> IsTokenChar(s[p]))
            && (e < |s| ==> !IsTokenChar(s[e]))
    decreases |s| - from
  {
    if from < |s| && IsTokenChar(s[from]) {
      TokenEndSpec(s, from + 1);
    }
  }

  /** `s.trim()`: `s` without the whitespace at either end. */
  function Trim(s: string): (r: string)
    ensures |r| <= |s|
  {
    if s != [] && IsSpace(s[0]) then Trim(s[1..])
    else if s != [] && IsSpace(s[|s| - 1]) then Trim(s[..|s| - 1])
    else s
  }

  /** The number of whitespace characters `s` starts with. */
  function LeadingSpace(s: string): (n: nat)
    ensures n <= |s|
  {
    if s != [] && IsSpace(s[0]) then 1 + LeadingSpace(s[1..]) else 0
  }

  // ---------------------------------------------------------------------------
  // Properties

  /** `Trim(s)` is the slice of `s` after its leading whitespace, it has no whitespace at its ends, and only whitespace is dropped. */
  lemma TrimSpec(s: string)
    ensures var r := Trim(s); var a := LeadingSpace(s);
            && a + |r| <= |s| && r == s[a..a + |r|]
            && (r != [] ==> !IsSpace(r[0]) && !IsSpace(r[|r| - 1]))
            && (forall p :: 0 <= p < a ==> IsSpace(s[p]))
            && (forall p :: a + |r| <= p < |s| ==> IsSpace(s[p]))
  {
    TrimEnds(s);
    TrimSlice(s);
    assert SpaceAround(s, LeadingSpace(s), Trim(s));
  }

  /** What trim returns has no whitespace at either end. */
  lemma {:induction false} TrimEnds(s: string)
    ensures var r := Trim(s); r != [] ==> !IsSpace(r[0]) && !IsSpace(r[|r| - 1])
  {
    if s != [] && IsSpace(s[0]) {
      TrimEnds(s[1..]);
    } else if s != [] && IsSpace(s[|s| - 1]) {
      TrimEnds(s[..|s| - 1]);
    }
  }

  /** `r` is the slice of `s` that starts after `a` characters, and everything of `s` outside it is whitespace. */
  ghost predicate SpaceAround(s: string, a: nat, r: string) {
    && a + |r| <= |s| && r == s[a..a + |r|]
    && (forall p :: 0 <= p < a ==> IsSpace(s[p]))
    && (forall p :: a + |r| <= p < |s| ==> IsSpace(s[p]))
  }

  /** Trim keeps the characters between the leading and the trailing whitespace, which it drops. */
  lemma {:induction false} TrimSlice(s: string)
    ensures SpaceAround(s, LeadingSpace(s), Trim(s))
  {
    if s != [] && IsSpace(s[0]) {
      TrimSlice(s[1..]);
      SpaceAroundFront(s, LeadingSpace(s[1..]), Trim(s));
    } else if s != [] && IsSpace(s[|s| - 1]) {
      TrimSlice(s[..|s| - 1]);
      SpaceAroundBack(s, Trim(s));
    }
  }

  /** A whitespace character in front extends what lies around the slice. */
  lemma SpaceAroundFront(s: string, a: nat, r: string)
    requires s != [] && IsSpace(s[0]) && SpaceAround(s[1..], a, r)
    ensures SpaceAround(s, a + 1, r)
  {
    assert s[1..][a..a + |r|] == s[a + 1..a + 1 + |r|];
    forall p | 0 <= p < 1 + a ensures IsSpace(s[p]) {
      if p > 0 {
        assert s[p] == s[1..][p - 1];
      }
    }
    forall p | a + 1 + |r| <= p < |s| ensures IsSpace(s[p]) {
      assert s[p] == s[1..][p - 1];
    }
  }

  /** A whitespace character at the back does too, when nothing leads. */
  lemma SpaceAroundBack(s: string, r: string)
    requires s != [] && IsSpace(s[|s| - 1]) && SpaceAround(s[..|s| - 1], 0, r)
    ensures SpaceAround(s, 0, r)
  {
    var t := s[..|s| - 1];
    assert t[0..|r|] == s[0..|r|];
    forall p | |r| <= p < |s| ensures IsSpace(s[p]) {
      if p < |s| - 1 {
        assert s[p] == t[p];
      }
    }
  }

  /** A string that already has no whitespace at either end is its own trim. */
  lemma TrimUnchanged(s: string)
    requires s != [] ==> !IsSpace(s[0]) && !IsSpace(s[|s| - 1])
    ensures Trim(s) == s
  {
  }

  /** A string of whitespace trims to the empty string. */
  lemma {:induction false} TrimAllSpace(s: string)
    requires forall p :: 0 <= p < |s| ==> IsSpace(s[p])
    ensures Trim(s) == []
  {
    if s != [] {
      TrimAllSpace(s[1..]);
    }
  }

  /** Trailing whitespace after an already trimmed string is removed by trim. */
  lemma {:induction false} TrimDropsTrailing(v: string, w: string)
    requires v != [] ==> !IsSpace(v[0]) && !IsSpace(v[|v| - 1])
    requires forall p :: 0 <= p < |w| ==> IsSpace(w[p])
    ensures Trim(v + w) == v
    decreases |w|
  {
    if v == [] {
      assert v + w == w;
      TrimAllSpace(w);
    } else if w == [] {
      assert v + w == v;
      TrimUnchanged(v);
    } else {
      assert (v + w)[0] == v[0];
      assert (v + w)[..|v + w| - 1] == v + w[..|w| - 1];
      TrimDropsTrailing(v, w[..|w| - 1]);
    }
  }

  /** A slice of a string that avoids `pat` avoids it too. */
  lemma SliceAvoids(s: string, pat: string, a: int, b: int)
    requires 0 <= a <= b <= |s|
    requires forall p :: a <= p && p + |pat| <= b ==> !HasAt(s, pat, p)
    ensures !Contains(s[a..b], pat)
  {
    forall q | HasAt(s[a..b], pat, q) ensures false {
      forall k | 0 <= k < |pat| ensures s[a + q + k] == pat[k] {
        assert s[a..b][q + k] == pat[k];
      }
      assert HasAt(s, pat, a + q);
    }
  }

  /** Trimming never introduces an occurrence of a pattern. */
  lemma TrimAvoids(s: string, pat: string)
    requires !Contains(s, pat)
    ensures !Contains(Trim(s), pat)
  {
    TrimSpec(s);
    var a := LeadingSpace(s);
    SliceAvoids(s, pat, a, a + |Trim(s)|);
  }
}
