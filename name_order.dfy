/**
 * The order `sorted` puts the diagram files of one directory in: paths of the same directory
 * compare by their file names, and Python compares strings code point by code point, a
 * proper prefix coming first.  `Sort` is a reference insertion sort under that order.
 */
module NameOrder {

  /** `a <= b` for Python strings. */
  predicate NotAfter(a: string, b: string)
    decreases |a|
  {
    a == [] || (b != [] && (a[0] < b[0] || (a[0] == b[0] && NotAfter(a[1..], b[1..]))))
  }

  predicate Sorted(s: seq<string>) {
    forall i, j :: 0 <= i < j < |s| ==> NotAfter(s[i], s[j])
  }

  /** `x` placed in front of the first entry of `s` that it does not come after. */
  function Insert(x: string, s: seq<string>): (r: seq<string>)
    ensures multiset(r) == multiset(s) + multiset{x}
  {
    if s == [] then [x]
    else if NotAfter(x, s[0]) then [x] + s
    else
      assert s == [s[0]] + s[1..];
      [s[0]] + Insert(x, s[1..])
  }

  function Sort(s: seq<string>): (r: seq<string>)
    ensures multiset(r) == multiset(s)
  {
    if s == [] then []
    else
      assert s == [s[0]] + s[1..];
      Insert(s[0], Sort(s[1..]))
  }

  // ---------------------------------------------------------------------------
  // Properties of the order

  /** Any two names are comparable. */
  lemma {:induction false} Total(a: string, b: string)
    ensures NotAfter(a, b) || NotAfter(b, a)
    decreases |a|
  {
    if a != [] && b != [] && a[0] == b[0] {
      Total(a[1..], b[1..]);
    }
  }

  lemma {:induction false} Transitive(a: string, b: string, c: string)
    requires NotAfter(a, b) && NotAfter(b, c)
    ensures NotAfter(a, c)
    decreases |a|
  {
    if a != [] && a[0] == b[0] && b[0] == c[0] {
      Transitive(a[1..], b[1..], c[1..]);
    }
  }

  /** Two names that each come no later than the other are the same name. */
  lemma {:induction false} Antisymmetric(a: string, b: string)
    requires NotAfter(a, b) && NotAfter(b, a)
    ensures a == b
    decreases |a|
  {
    if a != [] {
      Antisymmetric(a[1..], b[1..]);
      assert a == [a[0]] + a[1..] && b == [b[0]] + b[1..];
    }
  }

  // ---------------------------------------------------------------------------
  // Properties of the sort

  lemma {:induction false} InsertSorted(x: string, s: seq<string>)
    requires Sorted(s)
    ensures Sorted(Insert(x, s))
  {
    if s != [] {
      if NotAfter(x, s[0]) {
        forall j | 0 < j < |s| ensures NotAfter(x, s[j]) {
          Transitive(x, s[0], s[j]);
        }
      } else {
        Total(x, s[0]);
        InsertSorted(x, s[1..]);
        var rest := Insert(x, s[1..]);
        forall j | 0 <= j < |rest| ensures NotAfter(s[0], rest[j]) {
          assert rest[j] in multiset(rest);
          if rest[j] != x {
            assert rest[j] in multiset(s[1..]);
            var k :| 0 <= k < |s[1..]| && s[1..][k] == rest[j];
            assert s[k + 1] == rest[j];
          }
        }
      }
    }
  }

  /** The sorted names are in order. */
  lemma {:induction false} SortSorted(s: seq<string>)
    ensures Sorted(Sort(s))
  {
    if s != [] {
      SortSorted(s[1..]);
      InsertSorted(s[0], Sort(s[1..]));
    }
  }

  /** A sorted arrangement is unique: whatever order the directory listing came in, the files are visited in the same order. */
  lemma {:induction false} SortedUnique(r: seq<string>, t: seq<string>)
    requires Sorted(r) && Sorted(t) && multiset(r) == multiset(t)
    ensures r == t
    decreases |r|
  {
    if r != [] {
      SortedHead(r, t);
      SortedTail(r);
      SortedTail(t);
      SortedUnique(r[1..], t[1..]);
      assert r == [r[0]] + r[1..] && t == [t[0]] + t[1..];
    }
  }

  /** Two sorted arrangements of the same names start with the same name. */
  lemma SortedHead(r: seq<string>, t: seq<string>)
    requires Sorted(r) && Sorted(t) && multiset(r) == multiset(t) && r != []
    ensures t != [] && r[0] == t[0]
  {
    assert r[0] in multiset(t);
    assert |t| == |multiset(t)|;
    assert t[0] in multiset(r);
    var i :| 0 <= i < |t| && t[i] == r[0];
    var j :| 0 <= j < |r| && r[j] == t[0];
    if i > 0 && j > 0 {
      Antisymmetric(r[0], t[0]);
    }
  }

  /** Dropping the first name keeps a sorted arrangement sorted and takes that name out of the multiset. */
  lemma SortedTail(r: seq<string>)
    requires Sorted(r) && r != []
    ensures Sorted(r[1..])
    ensures multiset(r[1..]) == multiset(r) - multiset{r[0]}
  {
    assert r == [r[0]] + r[1..];
  }
}
