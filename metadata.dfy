/**
 * `parseMetadata` of push-metadata.js: six fixed patterns that lift fields out of a
 * markdown listing document.  Each regular expression is modelled by a hand-written
 * scanner together with a declarative statement of what the expression matches, and the
 * scanners are proved to return the leftmost match, as `String.prototype.match` does.
 */
module Metadata {
  import opened Wrappers
  import opened TextScan

  datatype Field = PromotionalText | Description | Keywords | WhatsNew | SupportUrl | MarketingUrl

  /** The first four fields come from a fenced block below a heading. */
  predicate IsFenced(f: Field) {
    f in {PromotionalText, Description, Keywords, WhatsNew}
  }

  const PromotionalTextHeading: string := "### Promotional Text"
  const DescriptionHeading: string := "### Description"
  const KeywordsHeading: string := "## Keywords"
  const WhatsNewHeading: string := "## What's New"
  const SupportUrlLabel: string := "**Support URL**"
  const MarketingUrlLabel: string := "**Marketing URL**"

  /** The heading each fenced field is anchored to. */
  function Heading(f: Field): (h: string)
    requires IsFenced(f)
    ensures |h| > 0
  {
    match f
    case PromotionalText => PromotionalTextHeading
    case Description => DescriptionHeading
    case Keywords => KeywordsHeading
    case WhatsNew => WhatsNewHeading
  }

  /** The bold label each URL field is anchored to. */
  function Label(f: Field): (l: string)
    requires !IsFenced(f)
    ensures |l| > 0
  {
    match f
    case SupportUrl => SupportUrlLabel
    case MarketingUrl => MarketingUrlLabel
  }

  const Fence: string := "```"
  const FenceLine: string := "```\n"

  /** Where a fenced pattern matched: the heading at `at`, the opening fence line at `open`, the closing fence at `close`. */
  datatype Block = Block(at: nat, open: nat, close: nat)

  /** Where a URL pattern matched: the label at `at`, the first bar after it at `bar`, the group `s[start..end]`. */
  datatype Row = Row(at: nat, bar: nat, start: nat, end: nat)

  // ---------------------------------------------------------------------------
  // What the regular expressions match

  /**
   * After the heading ends at `a`: characters other than a backtick up to `b.open`, the
   * opening fence with its line feed there, and the nearest closing fence at `b.close`.
   * This is the tail of `[^`]*```\n([\s\S]*?)```` and the group is `s[b.open + 4..b.close]`.
   */
  ghost predicate BlockTail(s: string, a: nat, b: Block) {
    && a <= b.open
    && HasAt(s, FenceLine, b.open)
    && (forall p :: a <= p < b.open ==> s[p] != '`')
    && b.open + 4 <= b.close
    && HasAt(s, Fence, b.close)
    && (forall p :: b.open + 4 <= p < b.close ==> !HasAt(s, Fence, p))
  }

  /** `/H[^`]*```\n([\s\S]*?)```/` matches `s` as `b` describes, for the heading `h`. */
  ghost predicate BlockMatch(s: string, h: string, b: Block) {
    HasAt(s, h, b.at) && BlockTail(s, b.at + |h|, b)
  }

  /** The fenced pattern has no match starting at `i`. */
  ghost predicate NoBlockAt(s: string, h: string, i: int) {
    forall b: Block :: b.at == i ==> !BlockMatch(s, h, b)
  }

  /**
   * After the label ends at `a`: characters other than `|` up to a bar at `r.bar`, then
   * whitespace, then the longest run of `[^\s|]` from `r.start` to `r.end`, not empty.
   * This is the tail of `[^|]*\|\s*([^\s|]+)` and the group is `s[r.start..r.end]`.
   */
  ghost predicate RowTail(s: string, a: nat, r: Row) {
    && a <= r.bar < r.start < r.end <= |s|
    && (forall p :: a <= p < r.bar ==> s[p] != '|')
    && s[r.bar] == '|'
    && (forall p :: r.bar < p < r.start ==> IsSpace(s[p]))
    && (forall p :: r.start <= p < r.end ==> IsTokenChar(s[p]))
    && (r.end < |s| ==> !IsTokenChar(s[r.end]))
  }

  /** `/L[^|]*\|\s*([^\s|]+)/` matches `s` as `r` describes, for the label `l`. */
  ghost predicate RowMatch(s: string, l: string, r: Row) {
    HasAt(s, l, r.at) && RowTail(s, r.at + |l|, r)
  }

  /** The URL pattern has no match starting at `i`. */
  ghost predicate NoRowAt(s: string, l: string, i: int) {
    forall r: Row :: r.at == i ==> !RowMatch(s, l, r)
  }

  // ---------------------------------------------------------------------------
  // Scanners

  /** The fenced-block tail after the heading occurrence at `i`: the first backtick must open a fence, then the next fence closes it. */
  function BlockAt(s: string, h: string, i: nat): (r: Option<Block>)
    ensures r.Some? ==> r.value.at == i && r.value.open + 4 <= r.value.close && r.value.close + 3 <= |s|
  {
    match IndexOf(s, "`", i + |h|)
    case None => None
    case Some(j) =>
      if !HasAt(s, FenceLine, j) then None
      else match IndexOf(s, Fence, j + 4)
        case None => None
        case Some(k) => Some(Block(i, j, k))
  }

  /** The leftmost match of the fenced pattern for heading `h` that starts at or after `from`. */
  function FindBlock(s: string, h: string, from: nat): (r: Option<Block>)
    requires |h| > 0
    ensures r.Some? ==> from <= r.value.at && r.value.open + 4 <= r.value.close <= |s|
    decreases |s| - from
  {
    match IndexOf(s, h, from)
    case None => None
    case Some(i) =>
      var b := BlockAt(s, h, i);
      if b.Some? then b else FindBlock(s, h, i + 1)
  }

  /** The table-row tail after the label occurrence at `i`: the first bar, the spaces after it, then a non-empty token. */
  function RowAt(s: string, l: string, i: nat): (r: Option<Row>)
    ensures r.Some? ==> r.value.at == i && r.value.bar < r.value.start <= r.value.end <= |s|
  {
    match IndexOf(s, "|", i + |l|)
    case None => None
    case Some(j) =>
      var m := SkipSpace(s, j + 1);
      if m < |s| && s[m] != '|' then Some(Row(i, j, m, TokenEnd(s, m)))
      else None
  }

  /** The leftmost match of the URL pattern for label `l` that starts at or after `from`. */
  function FindRow(s: string, l: string, from: nat): (r: Option<Row>)
    requires |l| > 0
    ensures r.Some? ==> from <= r.value.at && r.value.start <= r.value.end <= |s|
    decreases |s| - from
  {
    match IndexOf(s, l, from)
    case None => None
    case Some(i) =>
      var r := RowAt(s, l, i);
      if r.Some? then r else FindRow(s, l, i + 1)
  }

  // ---------------------------------------------------------------------------
  // The scanners find exactly what the regular expressions match

  /** What `BlockAt` returns is a fenced-block tail after the heading. */
  lemma BlockAtSound(s: string, h: string, i: nat)
    ensures BlockAt(s, h, i).Some? ==> BlockTail(s, i + |h|, BlockAt(s, h, i).value)
  {
    IndexOfSpec(s, "`", i + |h|);
    match IndexOf(s, "`", i + |h|)
    case None =>
    case Some(j) =>
      IndexOfSpec(s, Fence, j + 4);
      forall p | i + |h| <= p < j ensures s[p] != '`' {
        HasAtChar(s, '`', p);
      }
  }

  /** Every fenced-block tail after the heading is the one `BlockAt` returns: there is at most one. */
  lemma BlockAtOnly(s: string, h: string, b: Block)
    ensures BlockTail(s, b.at + |h|, b) ==> BlockAt(s, h, b.at) == Some(b)
  {
    if BlockTail(s, b.at + |h|, b) {
      assert s[b.open + 0] == FenceLine[0];
      HasAtChar(s, '`', b.open);
      forall p | b.at + |h| <= p < b.open ensures !HasAt(s, "`", p) {
        HasAtChar(s, '`', p);
      }
      IndexOfAt(s, "`", b.at + |h|, b.open);
      IndexOfAt(s, Fence, b.open + 4, b.close);
    }
  }

  /** At an occurrence of the heading, the pattern matches exactly when `BlockAt` finds a tail. */
  lemma NoBlockAtIff(s: string, h: string, i: nat)
    requires HasAt(s, h, i)
    ensures NoBlockAt(s, h, i) <==> BlockAt(s, h, i).None?
  {
    BlockAtSound(s, h, i);
    if BlockAt(s, h, i).Some? {
      assert BlockMatch(s, h, BlockAt(s, h, i).value);
    } else {
      forall b: Block | b.at == i ensures !BlockMatch(s, h, b) {
        BlockAtOnly(s, h, b);
      }
    }
  }

  /** What `FindBlock` returns is the tail `BlockAt` finds at an occurrence of the heading at or after `from`. */
  lemma {:induction false} FindBlockFound(s: string, h: string, from: nat)
    requires |h| > 0
    ensures var r := FindBlock(s, h, from);
            r.Some? ==> HasAt(s, h, r.value.at) && BlockAt(s, h, r.value.at) == r
    decreases |s| - from
  {
    match IndexOf(s, h, from)
    case None =>
    case Some(i) =>
      assert HasAt(s, h, i) by {
        IndexOfSpec(s, h, from);
      }
      if BlockAt(s, h, i).None? {
        FindBlockFound(s, h, i + 1);
      }
  }

  /** Every occurrence of the heading that `FindBlock` passes over has a failing tail. */
  lemma {:induction false} FindBlockSkips(s: string, h: string, from: nat)
    requires |h| > 0
    ensures var r := FindBlock(s, h, from);
            r.Some? ==> forall i {:trigger BlockAt(s, h, i)} :: from <= i < r.value.at && HasAt(s, h, i) ==> BlockAt(s, h, i).None?
    decreases |s| - from
  {
    match IndexOf(s, h, from)
    case None =>
    case Some(i) =>
      assert forall p :: from <= p < i ==> !HasAt(s, h, p) by {
        IndexOfSpec(s, h, from);
      }
      if BlockAt(s, h, i).None? {
        FindBlockSkips(s, h, i + 1);
      }
  }

  /** `FindBlock` passes over the occurrences whose tail fails and returns the tail at the first one where it succeeds. */
  lemma {:induction false} FindBlockFirst(s: string, h: string, from: nat, i: nat)
    requires |h| > 0 && from <= i && HasAt(s, h, i) && BlockAt(s, h, i).Some?
    requires forall i' :: from <= i' < i && HasAt(s, h, i') ==> BlockAt(s, h, i').None?
    ensures FindBlock(s, h, from) == BlockAt(s, h, i)
    decreases i - from
  {
    assert IndexOf(s, h, from).Some? && IndexOf(s, h, from).value <= i by {
      IndexOfSpec(s, h, from);
    }
    var i0 := IndexOf(s, h, from).value;
    if i0 < i {
      assert HasAt(s, h, i0) by {
        IndexOfSpec(s, h, from);
      }
      FindBlockFirst(s, h, i0 + 1, i);
    }
  }

  /** `FindBlock` finds nothing only when the tail fails at every occurrence at or after `from`. */
  lemma {:induction false} FindBlockNone(s: string, h: string, from: nat)
    requires |h| > 0
    ensures FindBlock(s, h, from).None? ==> forall i :: from <= i && HasAt(s, h, i) ==> BlockAt(s, h, i).None?
    decreases |s| - from
  {
    IndexOfSpec(s, h, from);
    match IndexOf(s, h, from)
    case None =>
    case Some(i0) =>
      if BlockAt(s, h, i0).None? {
        FindBlockNone(s, h, i0 + 1);
      }
  }

  /** Whatever matches the table-row tail, the space run and the token are the longest ones. */
  lemma RowTailShape(s: string, a: nat, r: Row)
    requires RowTail(s, a, r)
    ensures r.start == SkipSpace(s, r.bar + 1) && r.end == TokenEnd(s, r.start)
  {
    assert IsTokenChar(s[r.start]);
    SkipSpaceSpec(s, r.bar + 1);
    TokenEndSpec(s, r.start);
  }

  /** What `RowAt` returns is a table-row tail after the label. */
  lemma RowAtSound(s: string, l: string, i: nat)
    ensures RowAt(s, l, i).Some? ==> RowTail(s, i + |l|, RowAt(s, l, i).value)
  {
    match IndexOf(s, "|", i + |l|)
    case None =>
    case Some(j) =>
      assert HasAt(s, "|", j) && forall p :: i + |l| <= p < j ==> !HasAt(s, "|", p) by {
        IndexOfSpec(s, "|", i + |l|);
      }
      assert s[j] == '|' by {
        HasAtChar(s, '|', j);
      }
      forall p | i + |l| <= p < j ensures s[p] != '|' {
        HasAtChar(s, '|', p);
      }
      var m := SkipSpace(s, j + 1);
      if m < |s| && s[m] != '|' {
        SkipSpaceSpec(s, j + 1);
        TokenEndSpec(s, m);
      }
  }

  /** Every table-row tail after the label is the one `RowAt` returns: there is at most one. */
  lemma RowAtOnly(s: string, l: string, r: Row)
    ensures RowTail(s, r.at + |l|, r) ==> RowAt(s, l, r.at) == Some(r)
  {
    if RowTail(s, r.at + |l|, r) {
      HasAtChar(s, '|', r.bar);
      forall p | r.at + |l| <= p < r.bar ensures !HasAt(s, "|", p) {
        HasAtChar(s, '|', p);
      }
      IndexOfAt(s, "|", r.at + |l|, r.bar);
      RowTailShape(s, r.at + |l|, r);
      assert IsTokenChar(s[r.start]);
    }
  }

  /** At an occurrence of the label, the pattern matches exactly when `RowAt` finds a tail. */
  lemma NoRowAtIff(s: string, l: string, i: nat)
    requires HasAt(s, l, i)
    ensures NoRowAt(s, l, i) <==> RowAt(s, l, i).None?
  {
    RowAtSound(s, l, i);
    if RowAt(s, l, i).Some? {
      assert RowMatch(s, l, RowAt(s, l, i).value);
    } else {
      forall r: Row | r.at == i ensures !RowMatch(s, l, r) {
        RowAtOnly(s, l, r);
      }
    }
  }

  /** What `FindRow` returns is the tail `RowAt` finds at an occurrence of the label at or after `from`. */
  lemma {:induction false} FindRowFound(s: string, l: string, from: nat)
    requires |l| > 0
    ensures var r := FindRow(s, l, from);
            r.Some? ==> HasAt(s, l, r.value.at) && RowAt(s, l, r.value.at) == r
    decreases |s| - from
  {
    match IndexOf(s, l, from)
    case None =>
    case Some(i) =>
      assert HasAt(s, l, i) by {
        IndexOfSpec(s, l, from);
      }
      if RowAt(s, l, i).None? {
        FindRowFound(s, l, i + 1);
      }
  }

  /** Every occurrence of the label that `FindRow` passes over has a failing tail. */
  lemma {:induction false} FindRowSkips(s: string, l: string, from: nat)
    requires |l| > 0
    ensures var r := FindRow(s, l, from);
            r.Some? ==> forall i {:trigger RowAt(s, l, i)} :: from <= i < r.value.at && HasAt(s, l, i) ==> RowAt(s, l, i).None?
    decreases |s| - from
  {
    match IndexOf(s, l, from)
    case None =>
    case Some(i) =>
      assert forall p :: from <= p < i ==> !HasAt(s, l, p) by {
        IndexOfSpec(s, l, from);
      }
      if RowAt(s, l, i).None? {
        FindRowSkips(s, l, i + 1);
      }
  }

  /** `FindRow` passes over the occurrences whose tail fails and returns the tail at the first one where it succeeds. */
  lemma {:induction false} FindRowFirst(s: string, l: string, from: nat, i: nat)
    requires |l| > 0 && from <= i && HasAt(s, l, i) && RowAt(s, l, i).Some?
    requires forall i' :: from <= i' < i && HasAt(s, l, i') ==> RowAt(s, l, i').None?
    ensures FindRow(s, l, from) == RowAt(s, l, i)
    decreases i - from
  {
    assert IndexOf(s, l, from).Some? && IndexOf(s, l, from).value <= i by {
      IndexOfSpec(s, l, from);
    }
    var i0 := IndexOf(s, l, from).value;
    if i0 < i {
      assert HasAt(s, l, i0) by {
        IndexOfSpec(s, l, from);
      }
      FindRowFirst(s, l, i0 + 1, i);
    }
  }

  /** `FindRow` finds nothing only when the tail fails at every occurrence at or after `from`. */
  lemma {:induction false} FindRowNone(s: string, l: string, from: nat)
    requires |l| > 0
    ensures FindRow(s, l, from).None? ==> forall i :: from <= i && HasAt(s, l, i) ==> RowAt(s, l, i).None?
    decreases |s| - from
  {
    IndexOfSpec(s, l, from);
    match IndexOf(s, l, from)
    case None =>
    case Some(i0) =>
      if RowAt(s, l, i0).None? {
        FindRowNone(s, l, i0 + 1);
      }
  }

  // ---------------------------------------------------------------------------
  // Field values

  /** The trimmed group of the leftmost match of the fenced pattern for heading `h`. */
  function BlockValue(s: string, h: string): Option<string>
    requires |h| > 0
  {
    match FindBlock(s, h, 0)
    case None => None
    case Some(b) => Some(Trim(s[b.open + 4..b.close]))
  }

  /** The trimmed group of the leftmost match of the URL pattern for label `l`. */
  function RowValue(s: string, l: string): Option<string>
    requires |l| > 0
  {
    match FindRow(s, l, 0)
    case None => None
    case Some(r) => Some(Trim(s[r.start..r.end]))
  }

  /** The value `parseMetadata` stores for `f`, if its pattern matches. */
  function Extract(s: string, f: Field): Option<string>
  {
    if IsFenced(f) then BlockValue(s, Heading(f)) else RowValue(s, Label(f))
  }

  /**
   * A fenced field is absent exactly when its pattern matches nowhere; when present, it holds
   * the trimmed group of a match that no match starts before.
   */
  lemma BlockValueSpec(s: string, h: string)
    requires |h| > 0
    ensures BlockValue(s, h).None? <==> forall b :: !BlockMatch(s, h, b)
    ensures BlockValue(s, h).Some? ==>
              exists b :: && BlockMatch(s, h, b)
                          && (forall i :: 0 <= i < b.at ==> NoBlockAt(s, h, i))
                          && BlockValue(s, h) == Some(Trim(s[b.open + 4..b.close]))
  {
    if FindBlock(s, h, 0).Some? {
      var b := FindBlock(s, h, 0).value;
      FoundBlockIsLeftmost(s, h);
      assert BlockMatch(s, h, b);
    } else {
      FindBlockNone(s, h, 0);
      forall b ensures !BlockMatch(s, h, b) {
        BlockAtOnly(s, h, b);
      }
    }
  }

  /** The block `FindBlock` finds is a match of the pattern, and no match starts before it. */
  lemma FoundBlockIsLeftmost(s: string, h: string)
    requires |h| > 0 && FindBlock(s, h, 0).Some?
    ensures var b := FindBlock(s, h, 0).value;
            BlockMatch(s, h, b) && forall i :: 0 <= i < b.at ==> NoBlockAt(s, h, i)
  {
    var b := FindBlock(s, h, 0).value;
    assert HasAt(s, h, b.at) && BlockAt(s, h, b.at) == Some(b) by {
      FindBlockFound(s, h, 0);
    }
    assert BlockTail(s, b.at + |h|, b) by {
      BlockAtSound(s, h, b.at);
    }
    forall i | 0 <= i < b.at ensures NoBlockAt(s, h, i) {
      if HasAt(s, h, i) {
        assert BlockAt(s, h, i).None? by {
          FindBlockSkips(s, h, 0);
        }
        NoBlockAtIff(s, h, i);
      }
    }
  }

  /** A match that no match starts before determines the fenced field: its trimmed group. */
  lemma BlockValueLeftmost(s: string, h: string, b: Block)
    requires |h| > 0 && BlockMatch(s, h, b)
    requires forall i :: 0 <= i < b.at ==> NoBlockAt(s, h, i)
    ensures BlockValue(s, h) == Some(Trim(s[b.open + 4..b.close]))
  {
    BlockAtOnly(s, h, b);
    forall i | 0 <= i < b.at && HasAt(s, h, i) ensures BlockAt(s, h, i).None? {
      NoBlockAtIff(s, h, i);
    }
    FindBlockFirst(s, h, 0, b.at);
  }

  /** A fenced value contains no fence and has no whitespace at either end. */
  lemma BlockValueShape(s: string, h: string)
    requires |h| > 0
    ensures BlockValue(s, h).Some? ==>
              var v := BlockValue(s, h).value;
              && !Contains(v, Fence)
              && (v != [] ==> !IsSpace(v[0]) && !IsSpace(v[|v| - 1]))
  {
    FindBlockFound(s, h, 0);
    if FindBlock(s, h, 0).Some? {
      var b := FindBlock(s, h, 0).value;
      BlockAtSound(s, h, b.at);
      var g := s[b.open + 4..b.close];
      SliceAvoids(s, Fence, b.open + 4, b.close);
      TrimAvoids(g, Fence);
      TrimSpec(g);
    }
  }

  /**
   * A URL field is absent exactly when its pattern matches nowhere; when present, it holds
   * the group of a match that no match starts before.
   */
  lemma RowValueSpec(s: string, l: string)
    requires |l| > 0
    ensures RowValue(s, l).None? <==> forall r :: !RowMatch(s, l, r)
    ensures RowValue(s, l).Some? ==>
              exists r :: && RowMatch(s, l, r)
                          && (forall i :: 0 <= i < r.at ==> NoRowAt(s, l, i))
                          && RowValue(s, l) == Some(s[r.start..r.end])
  {
    if FindRow(s, l, 0).Some? {
      var r := FindRow(s, l, 0).value;
      assert HasAt(s, l, r.at) && RowAt(s, l, r.at) == Some(r) by {
        FindRowFound(s, l, 0);
      }
      assert RowTail(s, r.at + |l|, r) by {
        RowAtSound(s, l, r.at);
      }
      forall i | 0 <= i < r.at ensures NoRowAt(s, l, i) {
        if HasAt(s, l, i) {
          assert RowAt(s, l, i).None? by {
            FindRowSkips(s, l, 0);
          }
          NoRowAtIff(s, l, i);
        }
      }
      assert RowMatch(s, l, r);
      var g := s[r.start..r.end];
      assert IsTokenChar(g[0]) && IsTokenChar(g[|g| - 1]);
      TrimUnchanged(g);
    } else {
      FindRowNone(s, l, 0);
      forall r ensures !RowMatch(s, l, r) {
        RowAtOnly(s, l, r);
      }
    }
  }

  /** A match that no match starts before determines the URL field: its group, which `trim` leaves unchanged. */
  lemma RowValueLeftmost(s: string, l: string, r: Row)
    requires |l| > 0 && RowMatch(s, l, r)
    requires forall i :: 0 <= i < r.at ==> NoRowAt(s, l, i)
    ensures RowValue(s, l) == Some(s[r.start..r.end])
  {
    RowAtOnly(s, l, r);
    forall i | 0 <= i < r.at && HasAt(s, l, i) ensures RowAt(s, l, i).None? {
      NoRowAtIff(s, l, i);
    }
    FindRowFirst(s, l, 0, r.at);
    var g := s[r.start..r.end];
    assert IsTokenChar(g[0]) && IsTokenChar(g[|g| - 1]);
    TrimUnchanged(g);
  }

  /** A URL value is a non-empty run of characters that are neither whitespace nor `|`. */
  lemma RowValueShape(s: string, l: string)
    requires |l| > 0
    ensures RowValue(s, l).Some? ==>
              var v := RowValue(s, l).value;
              v != [] && forall p :: 0 <= p < |v| ==> IsTokenChar(v[p])
  {
    FindRowFound(s, l, 0);
    if FindRow(s, l, 0).Some? {
      var r := FindRow(s, l, 0).value;
      RowAtSound(s, l, r.at);
      var g := s[r.start..r.end];
      assert IsTokenChar(g[0]) && IsTokenChar(g[|g| - 1]);
      TrimUnchanged(g);
    }
  }

  /** A document holding heading `h` and, on the next line, a fenced block whose body is `v`. */
  function BlockDocument(h: string, v: string): (d: string)
    ensures |d| == |h| + |v| + 9
  {
    h + "\n" + FenceLine + v + "\n" + Fence
  }

  /** In that document the fenced pattern matches at the heading, with the body as its group. */
  lemma BlockDocumentMatch(h: string, v: string)
    requires |h| > 0
    requires !Contains(v, Fence)
    ensures var n := |h|; BlockMatch(BlockDocument(h, v), h, Block(0, n + 1, n + 6 + |v|))
    ensures BlockDocument(h, v)[|h| + 5..|h| + 6 + |v|] == v + "\n"
  {
    var d := BlockDocument(h, v);
    var n := |h|;
    var close := n + 6 + |v|;
    assert forall p :: 0 <= p < n ==> d[p] == h[p];
    assert forall p :: 0 <= p < |v| ==> d[n + 5 + p] == v[p];
    assert d[n] == '\n' && d[close - 1] == '\n';
    assert forall k :: 0 <= k < 4 ==> d[n + 1 + k] == FenceLine[k];
    assert forall k :: 0 <= k < 3 ==> d[close + k] == Fence[k];
    assert d[n + 5..n + 5 + |v|] == v;
    BodyHasNoFence(d, v, n + 5);
    assert d[n + 5..close] == v + "\n";
  }

  /** No fence starts inside a fence-free body `v` that is followed by a line feed. */
  lemma BodyHasNoFence(d: string, v: string, at: nat)
    requires at + |v| < |d| && d[at..at + |v|] == v && d[at + |v|] == '\n'
    requires !Contains(v, Fence)
    ensures forall p :: at <= p <= at + |v| ==> !HasAt(d, Fence, p)
  {
    forall p | at <= p <= at + |v| ensures !HasAt(d, Fence, p) {
      if p + 3 <= at + |v| {
        // a window inside the body would be a fence in `v`
        if HasAt(d, Fence, p) {
          forall k | 0 <= k < 3 ensures v[p - at + k] == Fence[k] {
            assert v[p - at + k] == d[at..at + |v|][p - at + k] == d[p + k];
          }
          assert HasAt(v, Fence, p - at);
        }
      } else {
        // the window covers the line feed that ends the body
        assert d[at + |v|] != Fence[at + |v| - p];
      }
    }
  }

  /** A heading, a fenced block opened on the next line and its body read back: the body is the value. */
  lemma BlockRoundTrip(h: string, v: string)
    requires |h| > 0
    requires !Contains(v, Fence)
    requires v != [] ==> !IsSpace(v[0]) && !IsSpace(v[|v| - 1])
    ensures BlockValue(BlockDocument(h, v), h) == Some(v)
  {
    var n := |h|;
    var d := BlockDocument(h, v);
    var g := d[n + 5..n + 6 + |v|];
    assert BlockValue(d, h) == Some(Trim(g)) && g == v + "\n" by {
      BlockDocumentMatch(h, v);
      BlockValueLeftmost(d, h, Block(0, n + 1, n + 6 + |v|));
    }
    assert Trim(v + "\n") == v by {
      TrimDropsTrailing(v, "\n");
    }
  }

  /** A table row holding label `l` in one cell and the URL `u` in the next. */
  function RowDocument(l: string, u: string): (d: string)
    ensures |d| == |l| + |u| + 5
  {
    l + " | " + u + " |"
  }

  /** In that row the URL pattern matches at the label, with the URL as its group. */
  lemma RowDocumentMatch(l: string, u: string)
    requires |l| > 0 && forall p :: 0 <= p < |l| ==> l[p] != '|'
    requires u != [] && forall p :: 0 <= p < |u| ==> IsTokenChar(u[p])
    ensures var n := |l|; RowMatch(RowDocument(l, u), l, Row(0, n + 1, n + 3, n + 3 + |u|))
    ensures RowDocument(l, u)[|l| + 3..|l| + 3 + |u|] == u
  {
    var d := RowDocument(l, u);
    var n := |l|;
    assert forall p :: 0 <= p < n ==> d[p] == l[p];
    assert forall p :: 0 <= p < |u| ==> d[n + 3 + p] == u[p];
    assert d[n] == ' ' && d[n + 1] == '|' && d[n + 2] == ' ' && d[n + 3 + |u|] == ' ';
    assert d[n + 3..n + 3 + |u|] == u;
  }

  /** A table row with a label, a bar and a URL read back: the URL is the value. */
  lemma RowRoundTrip(l: string, u: string)
    requires |l| > 0 && forall p :: 0 <= p < |l| ==> l[p] != '|'
    requires u != [] && forall p :: 0 <= p < |u| ==> IsTokenChar(u[p])
    ensures RowValue(RowDocument(l, u), l) == Some(u)
  {
    var n := |l|;
    RowDocumentMatch(l, u);
    RowValueLeftmost(RowDocument(l, u), l, Row(0, n + 1, n + 3, n + 3 + |u|));
  }

  // ---------------------------------------------------------------------------
  // The record `parseMetadata` returns

  /** The position of each field's statement in `parseMetadata`. */
  function Rank(f: Field): (k: nat)
    ensures k < 6
  {
    match f
    case PromotionalText => 0
    case Description => 1
    case Keywords => 2
    case WhatsNew => 3
    case SupportUrl => 4
    case MarketingUrl => 5
  }

  /** The value each field's pattern extracts from `content`. */
  ghost function Values(content: string): Field -> Option<string> {
    g => Extract(content, g)
  }

  /** `metadata` holds exactly the fields among the first `k` statements that `values` gives a value, with that value. */
  ghost predicate Filled(values: Field -> Option<string>, metadata: map<Field, string>, k: nat) {
    forall f :: && (f in metadata <==> Rank(f) < k && values(f).Some?)
                && (f in metadata ==> Some(metadata[f]) == values(f))
  }

  /** Storing statement `f`'s value, when there is one, extends what is filled by that statement. */
  lemma FilledStep(values: Field -> Option<string>, metadata: map<Field, string>, f: Field)
    requires Filled(values, metadata, Rank(f))
    ensures Filled(values, if values(f).Some? then metadata[f := values(f).value] else metadata, Rank(f) + 1)
  {
    var updated := if values(f).Some? then metadata[f := values(f).value] else metadata;
    forall g ensures && (g in updated <==> Rank(g) < Rank(f) + 1 && values(g).Some?)
                     && (g in updated ==> Some(updated[g]) == values(g))
    {
      if g != f {
        assert Rank(g) != Rank(f);
      }
    }
  }

  /** Once all six statements have run, `metadata` holds exactly the fields whose pattern matched. */
  lemma FilledAll(content: string, metadata: map<Field, string>)
    requires Filled(Values(content), metadata, 6)
    ensures forall f :: f in metadata <==> Extract(content, f).Some?
    ensures forall f :: f in metadata ==> Some(metadata[f]) == Extract(content, f)
  {
    forall f ensures Values(content)(f) == Extract(content, f) {
    }
  }

  /** One statement `if (match) metadata.f = match[1].trim()`: it stores `f` exactly when its pattern matched. */
  method StoreField(content: string, metadata: map<Field, string>, f: Field) returns (updated: map<Field, string>)
    requires Filled(Values(content), metadata, Rank(f))
    ensures Filled(Values(content), updated, Rank(f) + 1)
  {
    var v := Extract(content, f);
    if v.Some? {
      updated := metadata[f := v.value];
    } else {
      updated := metadata;
    }
    assert Values(content)(f) == v;
    FilledStep(Values(content), metadata, f);
  }

  /** `parseMetadata(filePath)` on the file's text: the record holds exactly the fields whose pattern matched, with their values. */
  method ParseMetadata(content: string) returns (metadata: map<Field, string>)
    ensures forall f :: f in metadata <==> Extract(content, f).Some?
    ensures forall f :: f in metadata ==> Some(metadata[f]) == Extract(content, f)
  {
    metadata := map[];
    assert Filled(Values(content), metadata, 0);
    assert Rank(PromotionalText) == 0 && Rank(Description) == 1 && Rank(Keywords) == 2;
    assert Rank(WhatsNew) == 3 && Rank(SupportUrl) == 4 && Rank(MarketingUrl) == 5;
    metadata := StoreField(content, metadata, PromotionalText);
    metadata := StoreField(content, metadata, Description);
    metadata := StoreField(content, metadata, Keywords);
    metadata := StoreField(content, metadata, WhatsNew);
    metadata := StoreField(content, metadata, SupportUrl);
    metadata := StoreField(content, metadata, MarketingUrl);
    FilledAll(content, metadata);
  }
}
