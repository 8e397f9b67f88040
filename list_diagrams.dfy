/**
 * `list_diagrams` of list-diagrams.py: every `*.json` file of the Aligner directory, in sorted
 * order, summarised as its diagram name, file name, node and edge counts and, when there are
 * comments, how many comments sit on how many nodes.  A file that is not JSON gets a warning
 * line and the listing goes on; an exception the `try` does not name ends the script.
 */
module ListDiagrams {
  import opened Wrappers
  import opened JsonData
  import opened Py
  import opened NameOrder
  import ReadComments

  /** The lines `list_diagrams` prints. */
  datatype Line =
    | NoDirectory                           // `No ~/.aligner directory found`
    | NoDiagrams                            // `No diagrams found in ~/.aligner/`
    | Banner                                // `Aligner Diagrams`
    | Rule(width: nat)                      // `"=" * width`
    | Diagram(name: Json)                   // an empty line, then the diagram name
    | FileName(file: string)                // `   File: <file>`
    | Counts(nodes: nat, edges: nat)        // `   Nodes: <n>, Edges: <e>`
    | Discussion(comments: nat, on: nat)    // `   <c> comments on <k> nodes`
    | Unreadable(file: string)              // an empty line, then `<file>: Error reading - <e>`
    | Blank                                 // the closing `print()`

  /** How the script ends: it returns, or an exception escapes. */
  datatype Ending = Returned | Escaped(error: Error)

  /** Everything the script printed, and how it ended. */
  datatype Outcome = Outcome(lines: seq<Line>, ending: Ending)

  /** `Path(file).stem` for the name of a file that `*.json` matched. */
  function Stem(file: string): (stem: string)
    ensures |file| > 5 && file[|file| - 5..] == ".json" ==> file == stem + ".json"
    ensures !(|file| > 5 && file[|file| - 5..] == ".json") ==> stem == file
  {
    if |file| > 5 && file[|file| - 5..] == ".json" then file[..|file| - 5] else file
  }

  /** `len(n.get("comments", []))` for one item of `nodes`. */
  function ThreadLength(n: Json): Result<nat>
  {
    match Get(n, "comments", Arr([]))
    case Raised(e) => Raised(e)
    case Ok(comments) => Len(comments)
  }

  /** `sum(len(n.get("comments", [])) for n in nodes)` over the first `k` items; the first item that raises ends the sum. */
  function CommentCountAmong(items: seq<Json>, k: nat): Result<nat>
    requires k <= |items|
  {
    if k == 0 then Ok(0)
    else
      match CommentCountAmong(items, k - 1)
      case Raised(e) => Raised(e)
      case Ok(total) =>
        match ThreadLength(items[k - 1])
        case Raised(e) => Raised(e)
        case Ok(m) => Ok(total + m)
  }

  /** `sum(1 for n in nodes if n.get("comments"))` over the first `k` items. */
  function CommentedCountAmong(items: seq<Json>, k: nat): Result<nat>
    requires k <= |items|
  {
    if k == 0 then Ok(0)
    else
      match CommentedCountAmong(items, k - 1)
      case Raised(e) => Raised(e)
      case Ok(total) =>
        var n := items[k - 1];
        if !n.Obj? then Raised(AttributeError)
        else if ReadComments.HasComments(n) then Ok(total + 1)
        else Ok(total)
  }

  /** `comment_count` of the document's `nodes`. */
  function CommentCount(nodes: Json): Result<nat>
  {
    match Iterate(nodes)
    case Raised(e) => Raised(e)
    case Ok(items) => CommentCountAmong(items, |items|)
  }

  /** `nodes_with_comments` of the document's `nodes`. */
  function CommentedCount(nodes: Json): Result<nat>
  {
    match Iterate(nodes)
    case Raised(e) => Raised(e)
    case Ok(items) => CommentedCountAmong(items, |items|)
  }

  /** The counts line, then the comment line when there is at least one comment. */
  function Tally(nodes: nat, edges: nat, comments: nat, commented: nat): seq<Line>
  {
    [Counts(nodes, edges)] + if comments > 0 then [Discussion(comments, commented)] else []
  }

  /**
   * The body of the `try` for one file: `document` is what `json.load` returned, `None` for a
   * `JSONDecodeError`, which the `except` turns into a warning.
   */
  function Summary(file: string, document: Option<Json>): Trace<Line>
  {
    match document
    case None => Trace([Unreadable(file)], None)
    case Some(data) =>
      match Get(data, "name", Str(Stem(file)))
      case Raised(e) => Trace([], Some(e))
      case Ok(name) =>
        var nodes := Lookup(data.members, "nodes", Arr([]));
        var edges := Lookup(data.members, "edges", Arr([]));
        match CommentCount(nodes)
        case Raised(e) => Trace([], Some(e))
        case Ok(comments) =>
          match CommentedCount(nodes)
          case Raised(e) => Trace([], Some(e))
          case Ok(commented) =>
            var head := [Diagram(name), FileName(file)];
            var nodeCount := Len(nodes).value;  // `nodes` could be iterated, so it has a length
            match Len(edges)
            case Raised(e) => Trace(head, Some(e))
            case Ok(edgeCount) => Trace(head + Tally(nodeCount, edgeCount, comments, commented), None)
  }

  /** One turn of the loop: read the file, parse it, summarise it. */
  function Visits(contents: string -> string, parse: string -> Option<Json>): string -> Trace<Line>
  {
    (file: string) => Summary(file, parse(contents(file)))
  }

  /**
   * `list_diagrams()`: `found` says whether the directory exists, `files` are the names
   * `glob("*.json")` found in it, in whatever order, `contents` reads a file and `parse` is
   * `json.load`.
   */
  function Listing(found: bool, files: seq<string>, contents: string -> string, parse: string -> Option<Json>): Outcome
  {
    if !found then Outcome([NoDirectory], Returned)
    else if files == [] then Outcome([NoDiagrams], Returned)
    else
      var order := Sort(files);
      var listed := Loop(order, |order|, Visits(contents, parse));
      var head := [Banner, Rule(60)];
      match listed.raised
      case None => Outcome(head + listed.lines + [Blank], Returned)
      case Some(e) => Outcome(head + listed.lines, Escaped(e))
  }

  // ---------------------------------------------------------------------------
  // The script

  /** The `try` block for one file. */
  method Summarize(file: string, document: Option<Json>) returns (lines: seq<Line>, raised: Option<Error>)
    ensures Trace(lines, raised) == Summary(file, document)
  {
    if document.None? {
      return [Unreadable(file)], None;
    }
    var data := document.value;
    var got := Get(data, "name", Str(Stem(file)));
    if got.Raised? {
      return [], Some(got.error);
    }
    var name := got.value;
    var nodes := Lookup(data.members, "nodes", Arr([]));
    var edges := Lookup(data.members, "edges", Arr([]));
    var commentCount := CommentCount(nodes);
    if commentCount.Raised? {
      return [], Some(commentCount.error);
    }
    var nodesWithComments := CommentedCount(nodes);
    if nodesWithComments.Raised? {
      return [], Some(nodesWithComments.error);
    }
    lines := [Diagram(name), FileName(file)];
    var nodeCount := Len(nodes);
    var edgeCount := Len(edges);
    if edgeCount.Raised? {
      return lines, Some(edgeCount.error);
    }
    lines := lines + [Counts(nodeCount.value, edgeCount.value)];
    if commentCount.value > 0 {
      lines := lines + [Discussion(commentCount.value, nodesWithComments.value)];
    }
    raised := None;
  }

  /** One turn of the `for` loop: the `try` block for the i-th file in sorted order. */
  method VisitFile(order: seq<string>, i: nat, contents: string -> string, parse: string -> Option<Json>, printed: seq<Line>)
    returns (printed': seq<Line>, raised: Option<Error>)
    requires i < |order| && Loop(order, i, Visits(contents, parse)) == Trace(printed, None)
    ensures Loop(order, i + 1, Visits(contents, parse)) == Trace(printed', raised)
  {
    var file := order[i];
    var summary;
    summary, raised := Summarize(file, parse(contents(file)));
    assert Visits(contents, parse)(file) == Trace(summary, raised);
    printed' := printed + summary;
  }

  /** `list_diagrams()`: the two early returns, then the files in sorted order, each in its own `try`. */
  method List(found: bool, files: seq<string>, contents: string -> string, parse: string -> Option<Json>)
    returns (lines: seq<Line>, ending: Ending)
    ensures Outcome(lines, ending) == Listing(found, files, contents, parse)
  {
    if !found {
      return [NoDirectory], Returned;
    }
    if files == [] {
      return [NoDiagrams], Returned;
    }
    var head := [Banner, Rule(60)];
    var order := Sort(files);
    var printed := [];
    var raised := None;
    var i := 0;
    while i < |order| && raised.None?
      invariant 0 <= i <= |order|
      invariant Loop(order, i, Visits(contents, parse)) == Trace(printed, raised)
    {
      printed, raised := VisitFile(order, i, contents, parse, printed);
      i := i + 1;
    }
    if raised.Some? {
      LoopStaysRaised(order, i, |order|, Visits(contents, parse));
      lines, ending := head + printed, Escaped(raised.value);
    } else {
      lines, ending := head + printed + [Blank], Returned;
    }
  }

  // ---------------------------------------------------------------------------
  // Properties

  /** The stem of a file name matched by `*.json` is the name without that extension. */
  lemma StemOfJsonFile(base: string)
    requires base != []
    ensures Stem(base + ".json") == base
  {
    assert (base + ".json")[|base|..] == ".json";
  }

  /** A node without a `comments` key adds nothing to the comment count. */
  lemma MissingThreadCountsZero(node: seq<Member>)
    requires forall i :: 0 <= i < |node| ==> node[i].key != "comments"
    ensures ThreadLength(Obj(node)) == Ok(0)
  {
  }

  /** The comment count of the nodes of `a + b` is that of `a` plus that of `b`. */
  lemma {:induction false} CommentCountAppend(a: seq<Json>, b: seq<Json>, k: nat)
    requires k <= |b|
    requires CommentCountAmong(a, |a|).Ok? && CommentCountAmong(b, k).Ok?
    ensures CommentCountAmong(a + b, |a| + k) == Ok(CommentCountAmong(a, |a|).value + CommentCountAmong(b, k).value)
  {
    if k == 0 {
      CommentCountPrefix(a, b, |a|);
    } else {
      CommentCountAppend(a, b, k - 1);
      assert (a + b)[|a| + k - 1] == b[k - 1];
    }
  }

  /** A count over a prefix does not see what follows it. */
  lemma {:induction false} CommentCountPrefix(a: seq<Json>, b: seq<Json>, k: nat)
    requires k <= |a|
    ensures CommentCountAmong(a + b, k) == CommentCountAmong(a, k)
  {
    if k > 0 {
      CommentCountPrefix(a, b, k - 1);
      assert (a + b)[k - 1] == a[k - 1];
    }
  }

  /**
   * Once the comment count has been computed, the commented-node count cannot raise; it is at
   * most the number of nodes and at most the number of comments, since a node with a truthy
   * thread holds at least one comment.
   */
  lemma {:induction false} CommentedCountBounds(items: seq<Json>, k: nat)
    requires k <= |items|
    requires CommentCountAmong(items, k).Ok?
    ensures CommentedCountAmong(items, k).Ok?
    ensures CommentedCountAmong(items, k).value <= k
    ensures CommentedCountAmong(items, k).value <= CommentCountAmong(items, k).value
  {
    if k > 0 {
      CommentedCountBounds(items, k - 1);
      var n := items[k - 1];
      if ReadComments.HasComments(n) {
        var thread := Lookup(n.members, "comments", Null);
        TruthyLen(thread);
        assert Get(n, "comments", Arr([])) == Ok(thread) by {
          FindSpec(n.members, "comments");
        }
      }
    }
  }

  /** `nodes_with_comments` is the length of the `commented_nodes` list read-comments.py builds from the same nodes. */
  lemma {:induction false} CommentedCountAgrees(items: seq<Json>, k: nat)
    requires k <= |items|
    ensures CommentedCountAmong(items, k) ==
              match ReadComments.CommentedAmong(items, k)
              case Raised(e) => Raised(e)
              case Ok(kept) => Ok(|kept|)
  {
    if k > 0 {
      CommentedCountAgrees(items, k - 1);
    }
  }

  /** The comment line is printed exactly when the count of comments is positive. */
  lemma DiscussionOnlyWithComments(nodes: nat, edges: nat, comments: nat, commented: nat)
    ensures (exists l :: l in Tally(nodes, edges, comments, commented) && l.Discussion?) <==> comments > 0
    ensures comments > 0 ==> Tally(nodes, edges, comments, commented)[1] == Discussion(comments, commented)
  {
    if comments > 0 {
      assert Tally(nodes, edges, comments, commented)[1].Discussion?;
    }
  }

  /** The diagram name is the document's `name`, or the file stem when the key is missing. */
  lemma DiagramNameDefault(file: string, data: seq<Member>)
    requires Summary(file, Some(Obj(data))).lines != []
    ensures Summary(file, Some(Obj(data))).lines[0] ==
              Diagram(match Find(data, "name") case None => Str(Stem(file)) case Some(v) => v)
  {
  }

  /** A file that is not JSON gets one warning line naming it, and raises nothing. */
  lemma UnreadableIsWarned(file: string)
    ensures Summary(file, None) == Trace([Unreadable(file)], None)
  {
  }

  /**
   * Malformed files do not stop the listing: the script ends early exactly when, in sorted
   * order, some file that did parse raises.
   */
  lemma EscapesOnlyFromParsedFiles(files: seq<string>, contents: string -> string, parse: string -> Option<Json>)
    requires files != []
    ensures Listing(true, files, contents, parse).ending.Escaped? <==>
              exists i :: 0 <= i < |Sort(files)| && parse(contents(Sort(files)[i])).Some? &&
                          Visits(contents, parse)(Sort(files)[i]).raised.Some?
  {
    var order := Sort(files);
    LoopRaises(order, |order|, Visits(contents, parse));
    forall f ensures Visits(contents, parse)(f).raised.Some? ==> parse(contents(f)).Some? {
      UnreadableIsWarned(f);
    }
  }

  /** The files are visited in sorted order whatever order the directory listing gave them in; the arrangement is a permutation of the listing. */
  lemma VisitedInSortedOrder(files: seq<string>, listed: seq<string>)
    requires multiset(listed) == multiset(files)
    ensures Sorted(Sort(files)) && multiset(Sort(files)) == multiset(files)
    ensures Sort(listed) == Sort(files)
  {
    SortSorted(files);
    SortSorted(listed);
    SortedUnique(Sort(listed), Sort(files));
  }

  /** A missing directory, or one without diagram files, yields one message and no listing. */
  lemma NothingToList(found: bool, files: seq<string>, contents: string -> string, parse: string -> Option<Json>)
    requires !found || files == []
    ensures |Listing(found, files, contents, parse).lines| == 1
    ensures Listing(found, files, contents, parse).lines[0] == if found then NoDiagrams else NoDirectory
  {
  }
}
