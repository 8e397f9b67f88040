/**
 * `read_comments` of read-comments.py: load an Aligner diagram and print, for every node
 * that carries comments, its label and its comment thread, each comment attributed to the
 * user ("You") or to the agent ("Agent").  A missing file or a document that is not JSON
 * ends the script with status 1 before anything else is printed.
 */
module ReadComments {
  import opened Wrappers
  import opened JsonData
  import opened Py

  /** Who wrote a comment, as the thread shows it. */
  datatype Speaker = You | Agent

  /** The lines `read_comments` prints. */
  datatype Line =
    | FileNotFound                         // `Error: File not found: <path>`
    | InvalidJson                          // `Error: Invalid JSON: <e>`
    | NoComments(name: Json)               // `No comments in '<name>'`
    | Title(name: Json)                    // `Comments in '<name>':`
    | Rule(mark: char, width: nat)         // `mark * width`
    | NodeHeading(shown: Json)             // an empty line, then the node's label
    | Said(speaker: Speaker, text: Json)   // `  You: <text>` or `  Agent: <text>`
    | Blank                                // the closing `print()`

  /** How the script ends: it returns, it exits with a status, or an exception escapes. */
  datatype Ending = Returned | Exit(status: int) | Escaped(error: Error)

  /** The process's exit status: 0 after a return, the status given to `sys.exit`, and 1 when the interpreter stops on an escaped exception. */
  function ExitStatus(ending: Ending): int
  {
    match ending
    case Returned => 0
    case Exit(status) => status
    case Escaped(_) => 1
  }

  /** Everything the script printed, and how it ended. */
  datatype Outcome = Outcome(lines: seq<Line>, ending: Ending)

  /** `data.get("name", path.stem)` of a dictionary. */
  function DiagramName(data: seq<Member>, stem: string): (name: Json)
    ensures Find(data, "name").Some? ==> name == Find(data, "name").value
    ensures Find(data, "name").None? ==> name == Str(stem)
  {
    Lookup(data, "name", Str(stem))
  }

  /** `n.get("comments")` is truthy: the node is a dictionary with a non-empty thread. */
  predicate HasComments(node: Json)
    requires node.Obj?
  {
    Truthy(Lookup(node.members, "comments", Null))
  }

  /**
   * `[n for n in nodes if n.get("comments")]` over the first `k` items `for` visits:
   * an item that is not a dictionary raises `AttributeError`.
   */
  function CommentedAmong(items: seq<Json>, k: nat): Result<seq<Json>>
    requires k <= |items|
  {
    if k == 0 then Ok([])
    else
      match CommentedAmong(items, k - 1)
      case Raised(e) => Raised(e)
      case Ok(kept) =>
        var n := items[k - 1];
        if !n.Obj? then Raised(AttributeError)
        else if HasComments(n) then Ok(kept + [n])
        else Ok(kept)
  }

  /** `commented_nodes`, from `nodes` as the document holds it (iterating it raises when it is not a collection). */
  function CommentedNodes(nodes: Json): Result<seq<Json>>
  {
    match Iterate(nodes)
    case Raised(e) => Raised(e)
    case Ok(items) => CommentedAmong(items, |items|)
  }

  /** `node.get("label", node.get("id", "Unknown"))` */
  function Label(node: seq<Member>): Json
  {
    Lookup(node, "label", Lookup(node, "id", Str("Unknown")))
  }

  /** `author == "user"`: only the string `user` compares equal to it. */
  function SpeakerOf(author: Json): Speaker
  {
    if author == Str("user") then You else Agent
  }

  /** The line of one comment; `comment.get` raises on a comment that is not a dictionary. */
  function Remark(comment: Json): Trace<Line>
  {
    if comment.Obj? then
      Trace([Said(SpeakerOf(Lookup(comment.members, "from", Str("unknown"))),
                  Lookup(comment.members, "text", Str("")))], None)
    else Trace([], Some(AttributeError))
  }

  /** The section of one commented node: its heading and rule, then one line per comment. */
  function Section(node: Json): Trace<Line>
  {
    if !node.Obj? then Trace([], Some(AttributeError))
    else
      var head := [NodeHeading(Label(node.members)), Rule('-', 40)];
      match Iterate(Lookup(node.members, "comments", Arr([])))
      case Raised(e) => Trace(head, Some(e))
      case Ok(comments) =>
        var thread := Loop(comments, |comments|, Remark);
        Trace(head + thread.lines, thread.raised)
  }

  /** Everything after loading the document `data`. */
  function Report(data: Json, stem: string): Outcome
  {
    if !data.Obj? then Outcome([], Escaped(AttributeError))
    else
      var name := DiagramName(data.members, stem);
      match CommentedNodes(Lookup(data.members, "nodes", Arr([])))
      case Raised(e) => Outcome([], Escaped(e))
      case Ok(commented) =>
        if commented == [] then Outcome([NoComments(name)], Returned)
        else
          var sections := Loop(commented, |commented|, Section);
          var head := [Title(name), Rule('=', 50)];
          match sections.raised
          case None => Outcome(head + sections.lines + [Blank], Returned)
          case Some(e) => Outcome(head + sections.lines, Escaped(e))
  }

  /**
   * `read_comments(filepath)`: `file` is the text of the file, `None` when it does not exist;
   * `parse` is `json.load`, `None` for a `JSONDecodeError`; `stem` is the file name without
   * its extension.
   */
  function Session(file: Option<string>, stem: string, parse: string -> Option<Json>): Outcome
  {
    match file
    case None => Outcome([FileNotFound], Exit(1))
    case Some(text) =>
      match parse(text)
      case None => Outcome([InvalidJson], Exit(1))
      case Some(data) => Report(data, stem)
  }

  // ---------------------------------------------------------------------------
  // The script

  /** The inner `for comment in comments` loop of one node. */
  method PrintSection(node: Json) returns (lines: seq<Line>, raised: Option<Error>)
    ensures Trace(lines, raised) == Section(node)
  {
    if !node.Obj? {
      return [], Some(AttributeError);
    }
    var shown := Label(node.members);
    var head := [NodeHeading(shown), Rule('-', 40)];
    var comments := Iterate(Lookup(node.members, "comments", Arr([])));
    if comments.Raised? {
      return head, Some(comments.error);
    }
    var thread := comments.value;
    var said := [];
    var j := 0;
    while j < |thread|
      invariant 0 <= j <= |thread|
      invariant Loop(thread, j, Remark) == Trace(said, None)
    {
      var comment := thread[j];
      if !comment.Obj? {
        assert Loop(thread, j + 1, Remark) == Trace(said, Some(AttributeError));
        LoopStaysRaised(thread, j + 1, |thread|, Remark);
        return head + said, Some(AttributeError);
      }
      var author := Lookup(comment.members, "from", Str("unknown"));
      var text := Lookup(comment.members, "text", Str(""));
      if author == Str("user") {
        said := said + [Said(You, text)];
      } else {
        said := said + [Said(Agent, text)];
      }
      j := j + 1;
    }
    lines, raised := head + said, None;
  }

  /** `read_comments(filepath)`, its two early exits, the filter, and the loop over the commented nodes. */
  method Read(file: Option<string>, stem: string, parse: string -> Option<Json>) returns (lines: seq<Line>, ending: Ending)
    ensures Outcome(lines, ending) == Session(file, stem, parse)
  {
    if file.None? {
      return [FileNotFound], Exit(1);
    }
    var loaded := parse(file.value);
    if loaded.None? {
      return [InvalidJson], Exit(1);
    }
    var data := loaded.value;
    if !data.Obj? {
      return [], Escaped(AttributeError);
    }
    var name := DiagramName(data.members, stem);
    var found := CommentedNodes(Lookup(data.members, "nodes", Arr([])));
    if found.Raised? {
      return [], Escaped(found.error);
    }
    var commented := found.value;
    if commented == [] {
      return [NoComments(name)], Returned;
    }
    var head := [Title(name), Rule('=', 50)];
    var printed := [];
    var i := 0;
    while i < |commented|
      invariant 0 <= i <= |commented|
      invariant Loop(commented, i, Section) == Trace(printed, None)
    {
      var section, raised := PrintSection(commented[i]);
      printed := printed + section;
      if raised.Some? {
        LoopStaysRaised(commented, i + 1, |commented|, Section);
        return head + printed, Escaped(raised.value);
      }
      i := i + 1;
    }
    lines, ending := head + printed + [Blank], Returned;
  }

  // ---------------------------------------------------------------------------
  // Properties

  /** The filter keeps exactly the dictionaries whose comments are non-empty, and raises exactly when some item is not a dictionary. */
  lemma {:induction false} CommentedAmongSpec(items: seq<Json>, k: nat)
    requires k <= |items|
    ensures CommentedAmong(items, k).Ok? <==> forall i :: 0 <= i < k ==> items[i].Obj?
    ensures CommentedAmong(items, k).Ok? ==>
              forall n :: n in CommentedAmong(items, k).value <==> n in items[..k] && HasComments(n)
  {
    if k > 0 {
      CommentedAmongSpec(items, k - 1);
      assert items[..k] == items[..k - 1] + [items[k - 1]];
    }
  }

  /** The filter keeps the original order: the nodes kept from `a + b` are those kept from `a`, then those kept from `b`. */
  lemma {:induction false} CommentedAmongAppend(a: seq<Json>, b: seq<Json>, k: nat)
    requires k <= |b|
    requires CommentedAmong(a, |a|).Ok?
    ensures CommentedAmong(a + b, |a| + k) ==
              match CommentedAmong(b, k)
              case Raised(e) => Raised(e)
              case Ok(kept) => Ok(CommentedAmong(a, |a|).value + kept)
  {
    if k == 0 {
      CommentedAmongPrefix(a, b, |a|);
      assert CommentedAmong(a, |a|).value + [] == CommentedAmong(a, |a|).value;
    } else {
      CommentedAmongAppend(a, b, k - 1);
      assert (a + b)[|a| + k - 1] == b[k - 1];
      var kept := CommentedAmong(a, |a|).value;
      match CommentedAmong(b, k - 1)
      case Raised(e) =>
      case Ok(tail) =>
        assert CommentedAmong(a + b, |a| + k - 1) == Ok(kept + tail);
        var n := b[k - 1];
        if n.Obj? && HasComments(n) {
          assert kept + tail + [n] == kept + (tail + [n]);
        }
    }
  }

  /** Turns over a prefix do not see what follows it. */
  lemma {:induction false} CommentedAmongPrefix(a: seq<Json>, b: seq<Json>, k: nat)
    requires k <= |a|
    ensures CommentedAmong(a + b, k) == CommentedAmong(a, k)
  {
    if k > 0 {
      CommentedAmongPrefix(a, b, k - 1);
      assert (a + b)[k - 1] == a[k - 1];
    }
  }

  /** When no node has comments, the only output is the "No comments" line and the script returns. */
  lemma NoCommentsOnly(data: seq<Member>, stem: string)
    requires CommentedNodes(Lookup(data, "nodes", Arr([]))) == Ok([])
    ensures Report(Obj(data), stem) == Outcome([NoComments(DiagramName(data, stem))], Returned)
  {
  }

  /** A node section is printed only for nodes with comments: without any, no heading or comment line appears. */
  lemma NoSectionWithoutComments(data: seq<Member>, stem: string)
    requires CommentedNodes(Lookup(data, "nodes", Arr([]))) == Ok([])
    ensures forall l :: l in Report(Obj(data), stem).lines ==> !l.NodeHeading? && !l.Said?
  {
  }

  /** The label is `label` when the node has that key (whatever its value), else `id`, else "Unknown". */
  lemma LabelFallback(node: seq<Member>)
    ensures Find(node, "label").Some? ==> Label(node) == Find(node, "label").value
    ensures Find(node, "label").None? && Find(node, "id").Some? ==> Label(node) == Find(node, "id").value
    ensures Find(node, "label").None? && Find(node, "id").None? ==> Label(node) == Str("Unknown")
  {
  }

  /** A comment is the user's exactly when its `from` is the string `user`; a comment without `from` is the agent's. */
  lemma Attribution(comment: seq<Member>)
    ensures Remark(Obj(comment)).lines[0].speaker == You <==> Find(comment, "from") == Some(Str("user"))
    ensures Find(comment, "from").None? ==> Remark(Obj(comment)).lines[0].speaker == Agent
  {
  }

  /** A thread of dictionaries prints one line per comment, in stored order, and raises nothing. */
  lemma ThreadInOrder(comments: seq<Json>)
    requires forall i :: 0 <= i < |comments| ==> comments[i].Obj?
    ensures Loop(comments, |comments|, Remark).raised.None?
    ensures |Loop(comments, |comments|, Remark).lines| == |comments|
    ensures forall i :: 0 <= i < |comments| ==>
              Loop(comments, |comments|, Remark).lines[i] == Remark(comments[i]).lines[0]
  {
    var line := (c: Json) => if c.Obj? then Remark(c).lines[0] else Blank;
    LoopOneLineEach(comments, |comments|, Remark, line);
  }

  /**
   * `sys.exit(1)` is called exactly when the file is missing or not JSON, and then the script
   * has printed one error line and nothing else.  The process also ends with status 1 when an
   * exception escapes; it ends with status 0 only after a normal return.
   */
  lemma ExitBeforeOutput(file: Option<string>, stem: string, parse: string -> Option<Json>)
    ensures Session(file, stem, parse).ending == Exit(1) <==> file.None? || parse(file.value).None?
    ensures Session(file, stem, parse).ending == Exit(1) ==>
              Session(file, stem, parse).lines == [FileNotFound] || Session(file, stem, parse).lines == [InvalidJson]
    ensures ExitStatus(Session(file, stem, parse).ending) == 0 <==> Session(file, stem, parse).ending == Returned
    ensures ExitStatus(Session(file, stem, parse).ending) == 1 <==>
              file.None? || parse(file.value).None? || Session(file, stem, parse).ending.Escaped?
  {
  }
}
