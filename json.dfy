/**
 * Parsed JSON documents, as `JSON.parse` (Node.js) and `json.load` (Python) hand them over.
 * Numbers are integers here; an object keeps its members in document order, repeated keys included.
 */
module JsonData {
  import opened Wrappers

  datatype Json =
    | Null
    | Bool(b: bool)
    | Num(n: int)
    | Str(s: string)
    | Arr(items: seq<Json>)
    | Obj(members: seq<Member>)

  datatype Member = Member(key: string, value: Json)

  /** The value of member `k`: both parsers keep the last of repeated keys. */
  function Find(ms: seq<Member>, k: string): Option<Json>
  {
    if ms == [] then None
    else if ms[|ms| - 1].key == k then Some(ms[|ms| - 1].value)
    else Find(ms[..|ms| - 1], k)
  }

  /** The distinct keys, in the order of their first occurrence: the keys of the resulting dictionary. */
  function Keys(ms: seq<Member>): (ks: seq<string>)
    ensures |ks| <= |ms|
    ensures ms != [] ==> ks != []
  {
    if ms == [] then []
    else
      var ks := Keys(ms[..|ms| - 1]);
      if ms[|ms| - 1].key in ks then ks else ks + [ms[|ms| - 1].key]
  }

  // ---------------------------------------------------------------------------
  // Properties

  /** A key has a value exactly when some member carries it, and that value is the one of the last such member. */
  lemma {:induction false} FindSpec(ms: seq<Member>, k: string)
    ensures Find(ms, k).None? <==> forall i :: 0 <= i < |ms| ==> ms[i].key != k
    ensures Find(ms, k).Some? ==>
              exists i :: && 0 <= i < |ms| && ms[i].key == k && ms[i].value == Find(ms, k).value
                          && forall j :: i < j < |ms| ==> ms[j].key != k
  {
    if ms != [] && ms[|ms| - 1].key != k {
      var init := ms[..|ms| - 1];
      FindSpec(init, k);
      if Find(init, k).Some? {
        var i :| && 0 <= i < |init| && init[i].key == k && init[i].value == Find(init, k).value
                 && forall j :: i < j < |init| ==> init[j].key != k;
        assert ms[i] == init[i];
      }
    }
  }

  /** The dictionary keys are exactly the member keys, each once. */
  lemma {:induction false} KeysSpec(ms: seq<Member>)
    ensures forall k :: k in Keys(ms) <==> exists i :: 0 <= i < |ms| && ms[i].key == k
    ensures forall i, j :: 0 <= i < j < |Keys(ms)| ==> Keys(ms)[i] != Keys(ms)[j]
  {
    if ms != [] {
      var init := ms[..|ms| - 1];
      KeysSpec(init);
      forall i | 0 <= i < |init| ensures ms[i] == init[i] {
      }
      forall k | exists i :: 0 <= i < |ms| && ms[i].key == k
        ensures k in Keys(ms)
      {
        var i :| 0 <= i < |ms| && ms[i].key == k;
        if i < |init| {
          assert init[i] == ms[i];
        }
      }
    }
  }
}
