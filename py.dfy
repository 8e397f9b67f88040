/**
 * The Python reading of a document that `json.load` returned, as the Aligner scripts use it:
 * truthiness, `dict.get` with a default (an `AttributeError` on anything that is not a
 * dictionary), iteration (a `TypeError` on `None`, numbers and booleans), `len`, and a `for`
 * loop whose body may raise, which ends the loop with what it printed so far.
 */
module Py {
  import opened Wrappers
  import opened JsonData

  /** The exceptions a malformed document makes these scripts raise. */
  datatype Error = AttributeError | TypeError

  /** A computation that returns a value or raises. */
  datatype Result<T> = Ok(value: T) | Raised(error: Error)

  /** `bool(v)`: `None`, `False`, `0`, and the empty string, list and dictionary are falsy. */
  predicate Truthy(j: Json) {
    match j
    case Null => false
    case Bool(b) => b
    case Num(n) => n != 0
    case Str(s) => s != []
    case Arr(items) => items != []
    case Obj(ms) => ms != []
  }

  /** `d.get(k, default)` on the dictionary with members `ms`. */
  function Lookup(ms: seq<Member>, k: string, default: Json): Json
  {
    match Find(ms, k)
    case None => default
    case Some(v) => v
  }

  /** `d.get(k, default)` on any value: only a dictionary has `get`. */
  function Get(d: Json, k: string, default: Json): (r: Result<Json>)
    ensures r.Raised? <==> !d.Obj?
    ensures r.Raised? ==> r.error == AttributeError
    ensures d.Obj? && (forall i :: 0 <= i < |d.members| ==> d.members[i].key != k) ==> r == Ok(default)
  {
    if d.Obj? then
      FindSpec(d.members, k);
      Ok(Lookup(d.members, k, default))
    else Raised(AttributeError)
  }

  /** What `for x in v` visits: list items, dictionary keys, or the characters of a string. */
  function Iterate(j: Json): (r: Result<seq<Json>>)
    ensures r.Raised? <==> !(j.Arr? || j.Obj? || j.Str?)
    ensures r.Raised? ==> r.error == TypeError
  {
    match j
    case Arr(items) => Ok(items)
    case Obj(ms) =>
      var ks := Keys(ms);
      Ok(seq(|ks|, i requires 0 <= i < |ks| => Str(ks[i])))
    case Str(s) => Ok(seq(|s|, i requires 0 <= i < |s| => Str([s[i]])))
    case _ => Raised(TypeError)
  }

  /** `len(v)`: lists, dictionaries and strings have a length. */
  function Len(j: Json): (r: Result<nat>)
    ensures r.Raised? <==> !(j.Arr? || j.Obj? || j.Str?)
    ensures r.Raised? ==> r.error == TypeError
  {
    match j
    case Arr(items) => Ok(|items|)
    case Obj(ms) => Ok(|Keys(ms)|)
    case Str(s) => Ok(|s|)
    case _ => Raised(TypeError)
  }

  /** Lines printed so far, and the exception that ended the run, if one did. */
  datatype Trace<L> = Trace(lines: seq<L>, raised: Option<Error>)

  /**
   * The first `n` turns of `for x in items: step(x)`: each turn appends what it printed, and
   * the first turn that raises ends the loop, keeping the lines printed before the exception.
   */
  function Loop<T, L>(items: seq<T>, n: nat, step: T -> Trace<L>): Trace<L>
    requires n <= |items|
  {
    if n == 0 then Trace([], None)
    else
      var before := Loop(items, n - 1, step);
      if before.raised.Some? then before
      else
        var turn := step(items[n - 1]);
        Trace(before.lines + turn.lines, turn.raised)
  }

  // ---------------------------------------------------------------------------
  // Properties

  /** `len` is defined on exactly the values that can be iterated, and counts what iteration visits. */
  lemma IterateLen(j: Json)
    ensures Iterate(j).Ok? <==> Len(j).Ok?
    ensures Iterate(j).Ok? ==> |Iterate(j).value| == Len(j).value
  {
  }

  /** A list, dictionary or string is truthy exactly when its length is positive. */
  lemma TruthyLen(j: Json)
    ensures Len(j).Ok? ==> (Truthy(j) <==> Len(j).value > 0)
  {
    if j.Obj? && j.members == [] {
      assert Keys(j.members) == [];
    }
  }

  /** A loop raises exactly when one of its turns raises, and then it is the first such turn that decides. */
  lemma {:induction false} LoopRaises<T, L>(items: seq<T>, n: nat, step: T -> Trace<L>)
    requires n <= |items|
    ensures Loop(items, n, step).raised.None? <==> forall i :: 0 <= i < n ==> step(items[i]).raised.None?
  {
    if n > 0 {
      LoopRaises(items, n - 1, step);
    }
  }

  /** Once a turn has raised, later turns change nothing. */
  lemma {:induction false} LoopStaysRaised<T, L>(items: seq<T>, k: nat, n: nat, step: T -> Trace<L>)
    requires k <= n <= |items|
    requires Loop(items, k, step).raised.Some?
    ensures Loop(items, n, step) == Loop(items, k, step)
  {
    if k < n {
      LoopStaysRaised(items, k, n - 1, step);
    }
  }

  /** Output is never taken back: the lines of fewer turns are a prefix of the lines of more. */
  lemma {:induction false} LoopGrows<T, L>(items: seq<T>, k: nat, n: nat, step: T -> Trace<L>)
    requires k <= n <= |items|
    ensures Loop(items, k, step).lines <= Loop(items, n, step).lines
  {
    if k < n {
      LoopGrows(items, k, n - 1, step);
    }
  }

  /** When every turn prints exactly one line and none raises, the loop prints those lines, in order. */
  lemma {:induction false} LoopOneLineEach<T, L>(items: seq<T>, n: nat, step: T -> Trace<L>, line: T -> L)
    requires n <= |items|
    requires forall i :: 0 <= i < n ==> step(items[i]) == Trace([line(items[i])], None)
    ensures Loop(items, n, step) == Trace(seq(n, i requires 0 <= i < n => line(items[i])), None)
  {
    if n > 0 {
      LoopOneLineEach(items, n - 1, step, line);
    }
  }
}
