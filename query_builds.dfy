/**
 * `main` of query-builds.js: for each entry of a fixed registry of apps, in order, fetch
 * the five most recently uploaded builds and print one line per build, the first API
 * error, or "No builds found".  A request that fails at the transport level, or a
 * response whose shape makes a property read throw, is caught for that app alone and the
 * loop goes on; a body that is not JSON throws inside the response callback, outside the
 * per-app `try`, and ends the process.
 */
module QueryBuilds {
  import opened Wrappers
  import opened JsonData
  import opened Js
  import Jwt

  /** One registry entry: a display name and the App Store Connect app id. */
  datatype App = App(name: string, id: string)

  /** The registry `apps`, in insertion order, which is the order `Object.entries` visits it. */
  const Apps: seq<App> := [App("Pfizer", "6737364780"), App("GMP", "6757438008"),
                           App("Orchestrator", "6754814714"), App("MediaServer", "6757471795")]

  const BuildsFilter: string := "/v1/builds?filter[app]="
  const BuildsOrder: string := "&sort=-uploadedDate&limit=5"

  /** The five most recently uploaded builds of one app. */
  function BuildsPath(id: string): string
  {
    BuildsFilter + id + BuildsOrder
  }

  /** One `apiGet`: its path and its `Authorization` header. */
  datatype Request = Request(path: string, authorization: string)

  /** What the network delivers: the `error` event with its message, or the whole body once the response has ended (the status is never looked at). */
  datatype Reply = Failed(message: string) | Ended(body: string)

  /**
   * The collaborators of the loop: credentials and signer for `makeJWT`, the clock read
   * when the k-th request is signed, the network, `JSON.parse` and `JSON.stringify`.
   */
  datatype Env = Env(cred: Jwt.Credentials, signer: Jwt.Signer, clock: nat -> int,
                     network: Request -> Reply, parse: string -> Option<Json>, stringify: Json -> string)

  /** What the per-app `catch` prints as `Error: <e.message>`. */
  datatype Caught = NetworkError(message: string) | TypeError

  /** The lines `main` prints. */
  datatype Line =
    | Heading(name: string, id: string)                    // `=== name (id) ===`
    | Build(version: string, date: string, state: string)  // `Build <version> - <date> - <state>`
    | ApiErrors(shown: Value)                              // `Error: <errors[0].detail or JSON of errors>`
    | NoBuilds                                             // `No builds found`
    | Error(caught: Caught)                                // `Error: <message>` from the `catch`

  /** The request for the entry at position `k`: its builds path, signed when the clock reads `clock(k)`. */
  function RequestFor(app: App, k: nat, env: Env): Request
  {
    Request(BuildsPath(app.id), "Bearer " + Jwt.MakeJwt(env.cred, env.clock(k), env.signer))
  }

  // ---------------------------------------------------------------------------
  // One app

  /** `${a.uploadedDate?.slice(0,10) || '?'}`; `None` is the TypeError of a value that has no `slice`, or of a slice that has no text. */
  function ShownDate(uploaded: Value): Option<string>
  {
    match OptSlice(uploaded, 10)
    case None => None
    case Some(d) => if Truthy(d) then Text(d) else Some("?")
  }

  /**
   * The line for one build `b`, or `None` for the TypeError that reading `b.attributes.<...>`
   * or converting one of the three values to text throws.
   */
  function BuildLine(b: Value): Option<Line>
  {
    match Get(b, "attributes")
    case None => None
    case Some(a) =>
      if IsNullish(a) then None
      else
        match (Text(OptGet(a, "version")), ShownDate(OptGet(a, "uploadedDate")), Text(OptGet(a, "processingState")))
        case (Some(version), Some(date), Some(state)) => Some(Build(version, date, state))
        case _ => None
  }

  /** The lines `for (const b of result.data)` prints: one per build until a build throws, then the error caught. */
  function BuildLines(builds: seq<Value>): seq<Line>
  {
    if builds == [] then []
    else
      match BuildLine(builds[0])
      case None => [Error(TypeError)]
      case Some(line) => [line] + BuildLines(builds[1..])
  }

  /**
   * `result.data && result.data.length > 0`: `data` is truthy and its `length` converts to a
   * number above zero; `None` is the TypeError of a `length` that cannot be converted.
   */
  function HasBuilds(data: Value): Option<bool>
  {
    if Truthy(data) then AboveZero(OptGet(data, "length")) else Some(false)
  }

  /** The lines the body of the per-app `try` prints for a parsed response `result`. */
  function ResultLines(result: Json, stringify: Json -> string): seq<Line>
  {
    match Get(Defined(result), "data")
    case None => [Error(TypeError)]
    case Some(data) =>
      match HasBuilds(data)
      case None => [Error(TypeError)]
      case Some(true) =>
        (match Elements(data)
         case None => [Error(TypeError)]
         case Some(builds) => BuildLines(builds))
      case Some(false) =>
        var errors := OptGet(Defined(result), "errors");
        if Truthy(errors) then
          var detail := OptGet(Index0(errors), "detail");
          [ApiErrors(if Truthy(detail) then detail else Defined(Str(stringify(errors.json))))]
        else [NoBuilds]
  }

  /** What one app contributes after its heading: lines, or the end of the process. */
  datatype Report = Printed(lines: seq<Line>) | Crash

  /** The outcome of one `await apiGet(...)` and what follows it. */
  function AppReport(reply: Reply, env: Env): Report
  {
    match reply
    case Failed(message) => Printed([Error(NetworkError(message))])
    case Ended(body) =>
      match env.parse(body)
      case None => Crash
      case Some(result) => Printed(ResultLines(result, env.stringify))
  }

  /** One turn of the loop for the entry at position `k`: the request it sends and what it reports. */
  function Visit(app: App, k: nat, env: Env): (Request, Report)
  {
    var request := RequestFor(app, k, env);
    (request, AppReport(env.network(request), env))
  }

  /** The script's turn, for every entry. */
  function Visits(env: Env): (App, nat) -> (Request, Report)
  {
    (app: App, k: nat) => Visit(app, k, env)
  }

  // ---------------------------------------------------------------------------
  // The loop

  /** Where the loop stands: requests issued, lines printed, whether the process has ended. */
  datatype RunState = RunState(sent: seq<Request>, output: seq<Line>, crashed: bool)

  /**
   * The state after the first `n` entries of the registry have had their turn, for a
   * `visit` that gives the request and the report of each entry (`Visit` for the script).
   */
  function Run(registry: seq<App>, n: nat, visit: (App, nat) -> (Request, Report)): RunState
    requires n <= |registry|
  {
    if n == 0 then RunState([], [], false)
    else
      var prev := Run(registry, n - 1, visit);
      if prev.crashed then prev
      else
        var app := registry[n - 1];
        var (request, report) := visit(app, n - 1);
        var output := prev.output + [Heading(app.name, app.id)];
        match report
        case Crash => RunState(prev.sent + [request], output, true)
        case Printed(lines) => RunState(prev.sent + [request], output + lines, false)
  }

  /** The inner `for` loop over the builds of one response. */
  method PrintBuilds(builds: seq<Value>) returns (lines: seq<Line>)
    ensures lines == BuildLines(builds)
  {
    lines := [];
    var i := 0;
    while i < |builds|
      invariant 0 <= i <= |builds|
      invariant BuildLines(builds) == lines + BuildLines(builds[i..])
    {
      assert builds[i..][1..] == builds[i + 1..];
      var line := BuildLine(builds[i]);
      if line.None? {
        lines := lines + [Error(TypeError)];
        return;
      }
      lines := lines + [line.value];
      i := i + 1;
    }
    assert builds[i..] == [];
  }

  /** The body of the per-app `try` once `apiGet` resolved with `result`. */
  method PrintResult(result: Json, stringify: Json -> string) returns (lines: seq<Line>)
    ensures lines == ResultLines(result, stringify)
  {
    var data := Get(Defined(result), "data");
    if data.None? {
      return [Error(TypeError)];
    }
    var test := HasBuilds(data.value);
    if test.None? {
      return [Error(TypeError)];
    }
    if test.value {
      var builds := Elements(data.value);
      if builds.None? {
        return [Error(TypeError)];
      }
      lines := PrintBuilds(builds.value);
    } else {
      var errors := OptGet(Defined(result), "errors");
      if Truthy(errors) {
        var detail := OptGet(Index0(errors), "detail");
        lines := [ApiErrors(if Truthy(detail) then detail else Defined(Str(stringify(errors.json))))];
      } else {
        lines := [NoBuilds];
      }
    }
  }

  /**
   * One turn of the `for` loop after the heading: `await apiGet(...)` and the `try` body, or
   * the `catch` of a transport error; `crashed` is the uncaught `JSON.parse` error.
   */
  method VisitApp(app: App, k: nat, env: Env) returns (request: Request, lines: seq<Line>, crashed: bool)
    ensures (request, if crashed then Crash else Printed(lines)) == Visit(app, k, env)
  {
    request := RequestFor(app, k, env);
    crashed := false;
    match env.network(request)
    case Failed(message) =>
      lines := [Error(NetworkError(message))];
    case Ended(body) =>
      var result := env.parse(body);
      if result.None? {
        lines, crashed := [], true;
        return;
      }
      lines := PrintResult(result.value, env.stringify);
  }

  /** The body of the `for` loop for the entry at position `i`: its heading, then its turn. */
  method Turn(registry: seq<App>, i: nat, env: Env, sent: seq<Request>, output: seq<Line>)
    returns (sent': seq<Request>, output': seq<Line>, crashed: bool)
    requires i < |registry| && RunState(sent, output, false) == Run(registry, i, Visits(env))
    ensures RunState(sent', output', crashed) == Run(registry, i + 1, Visits(env))
  {
    var app := registry[i];
    output' := output + [Heading(app.name, app.id)];
    var request, lines;
    request, lines, crashed := VisitApp(app, i, env);
    assert Visits(env)(app, i) == (request, if crashed then Crash else Printed(lines));
    RunStep(registry, i, Visits(env));
    sent' := sent + [request];
    if !crashed {
      output' := output' + lines;
    }
  }

  /** `main()`: the registry visited in order, each app inside its own `try`. */
  method QueryAll(registry: seq<App>, env: Env) returns (sent: seq<Request>, output: seq<Line>, crashed: bool)
    ensures RunState(sent, output, crashed) == Run(registry, |registry|, Visits(env))
  {
    sent, output, crashed := [], [], false;
    var i := 0;
    while i < |registry| && !crashed
      invariant 0 <= i <= |registry|
      invariant RunState(sent, output, crashed) == Run(registry, i, Visits(env))
    {
      sent, output, crashed := Turn(registry, i, env, sent, output);
      i := i + 1;
    }
    if crashed {
      RunStaysCrashed(registry, i, |registry|, Visits(env));
    }
  }

  // ---------------------------------------------------------------------------
  // Properties

  /** One more turn of the loop, when the process has not ended: the entry's request, heading and report are appended. */
  lemma RunStep(registry: seq<App>, i: nat, visit: (App, nat) -> (Request, Report))
    requires i < |registry| && !Run(registry, i, visit).crashed
    ensures var prev := Run(registry, i, visit);
            var app := registry[i];
            var heading := prev.output + [Heading(app.name, app.id)];
            Run(registry, i + 1, visit)
              == match visit(app, i).1
                 case Crash => RunState(prev.sent + [visit(app, i).0], heading, true)
                 case Printed(lines) => RunState(prev.sent + [visit(app, i).0], heading + lines, false)
  {
  }

  /** Once the process has ended, later entries change nothing. */
  lemma {:induction false} RunStaysCrashed(registry: seq<App>, k: nat, n: nat, visit: (App, nat) -> (Request, Report))
    requires k <= n <= |registry| && Run(registry, k, visit).crashed
    ensures Run(registry, n, visit) == Run(registry, k, visit)
    decreases n - k
  {
    if k < n {
      RunStaysCrashed(registry, k, n - 1, visit);
    }
  }

  /**
   * Each entry is requested at most once, in registry order, with the request of its own
   * turn; the process ends only at an entry whose report is a crash, and every entry before
   * it was reported.  Without such an entry, every entry is requested.
   */
  lemma {:induction false} RunRequests(registry: seq<App>, n: nat, visit: (App, nat) -> (Request, Report))
    requires n <= |registry|
    ensures var r := Run(registry, n, visit);
            && |r.sent| <= n
            && (forall k :: 0 <= k < |r.sent| ==> r.sent[k] == visit(registry[k], k).0)
            && (!r.crashed ==> |r.sent| == n && forall k :: 0 <= k < n ==> visit(registry[k], k).1.Printed?)
            && (r.crashed ==> && |r.sent| > 0 && visit(registry[|r.sent| - 1], |r.sent| - 1).1.Crash?
                              && forall k :: 0 <= k < |r.sent| - 1 ==> visit(registry[k], k).1.Printed?)
  {
    if n > 0 {
      RunRequests(registry, n - 1, visit);
    }
  }

  /** The process ends exactly when some entry's report is a crash; when none is, every entry is requested. */
  lemma RunCompletes(registry: seq<App>, visit: (App, nat) -> (Request, Report))
    ensures var r := Run(registry, |registry|, visit);
            && (r.crashed <==> exists k :: 0 <= k < |registry| && visit(registry[k], k).1.Crash?)
            && (!r.crashed ==> |r.sent| == |registry|)
  {
    RunRequests(registry, |registry|, visit);
  }

  /** The ids of the registry, in listing order. */
  lemma AppIds()
    ensures |Apps| == 4
    ensures forall k :: 0 <= k < 4 ==> Apps[k].id == ["6737364780", "6757438008", "6754814714", "6757471795"][k]
  {
  }

  /**
   * Over the script's own registry, a turn that requests each app under its own id requests
   * the apps in listing order: at least the first one, and all four unless one turn crashes.
   */
  lemma RegistryOrder(visit: (App, nat) -> (Request, Report))
    requires forall app: App, k: nat :: visit(app, k).0.path == BuildsPath(app.id)
    ensures var r := Run(Apps, |Apps|, visit);
            && 1 <= |r.sent| <= 4
            && (forall k :: 0 <= k < |r.sent| ==>
                  r.sent[k].path == BuildsPath(["6737364780", "6757438008", "6754814714", "6757471795"][k]))
            && (!r.crashed ==> |r.sent| == 4)
  {
    AppIds();
    RunRequests(Apps, |Apps|, visit);
  }

  /** `main` requests the four apps of its registry in listing order, each under its own id. */
  lemma RegistryRequested(env: Env)
    ensures var r := Run(Apps, |Apps|, Visits(env));
            && 1 <= |r.sent| <= 4
            && (forall k :: 0 <= k < |r.sent| ==>
                  r.sent[k].path == BuildsPath(["6737364780", "6757438008", "6754814714", "6757471795"][k]))
            && (!r.crashed ==> |r.sent| == 4)
  {
    forall app: App, k: nat ensures Visits(env)(app, k).0.path == BuildsPath(app.id) {
      VisitShape(app, k, env);
    }
    RegistryOrder(Visits(env));
  }

  /** What is printed for the first entries stays at the front of everything printed later: sections come out in registry order. */
  lemma {:induction false} OutputGrows(registry: seq<App>, k: nat, n: nat, visit: (App, nat) -> (Request, Report))
    requires k <= n <= |registry|
    ensures Run(registry, k, visit).output <= Run(registry, n, visit).output
    ensures Run(registry, k, visit).sent <= Run(registry, n, visit).sent
    decreases n - k
  {
    if k < n {
      OutputGrows(registry, k, n - 1, visit);
    }
  }

  /**
   * For the script's own turn, a crash is a body that `JSON.parse` rejects, and nothing else:
   * a transport error is reported as one error line, and the request carries the entry's id
   * with the sort order and the limit.
   */
  lemma VisitShape(app: App, k: nat, env: Env)
    ensures var (request, report) := Visit(app, k, env);
            && request.path == BuildsFilter + app.id + BuildsOrder
            && request.authorization == "Bearer " + Jwt.MakeJwt(env.cred, env.clock(k), env.signer)
            && (report.Crash? <==> env.network(request).Ended? && env.parse(env.network(request).body).None?)
            && (env.network(request).Failed? ==> report == Printed([Error(NetworkError(env.network(request).message))]))
  {
  }

  /**
   * Three apps where the middle one fails at the transport level and the others are
   * reported: the output is the first app's section, the second app's heading and error
   * line, and the third app's section, in that order, and the process does not end early.
   */
  lemma MiddleFailure(a: App, b: App, c: App, visit: (App, nat) -> (Request, Report),
                      message: string, la: seq<Line>, lc: seq<Line>)
    requires visit(a, 0).1 == Printed(la)
    requires visit(b, 1).1 == Printed([Error(NetworkError(message))])
    requires visit(c, 2).1 == Printed(lc)
    ensures var r := Run([a, b, c], 3, visit);
            && !r.crashed
            && r.sent == [visit(a, 0).0, visit(b, 1).0, visit(c, 2).0]
            && r.output == [Heading(a.name, a.id)] + la
                           + [Heading(b.name, b.id), Error(NetworkError(message))]
                           + [Heading(c.name, c.id)] + lc
  {
    var registry := [a, b, c];
    assert registry[0] == a && registry[1] == b && registry[2] == c;
    assert Run(registry, 0, visit) == RunState([], [], false);
    var r1 := Run(registry, 1, visit);
    assert r1.output == [Heading(a.name, a.id)] + la && !r1.crashed;
    var r2 := Run(registry, 2, visit);
    assert r2.output == r1.output + [Heading(b.name, b.id), Error(NetworkError(message))] && !r2.crashed;
  }

  /** When every build reads cleanly, there is one line per build, in response order. */
  lemma {:induction false} BuildLinesInOrder(builds: seq<Value>)
    requires forall i :: 0 <= i < |builds| ==> BuildLine(builds[i]).Some?
    ensures |BuildLines(builds)| == |builds|
    ensures forall i :: 0 <= i < |builds| ==> BuildLines(builds)[i] == BuildLine(builds[i]).value
  {
    if builds != [] {
      BuildLinesInOrder(builds[1..]);
      assert forall i :: 1 <= i < |builds| ==> builds[1..][i - 1] == builds[i];
    }
  }

  /** The first build that throws ends the list with the caught error, after one line for each build before it. */
  lemma {:induction false} BuildLinesStop(builds: seq<Value>, j: nat)
    requires j < |builds| && BuildLine(builds[j]).None?
    requires forall i :: 0 <= i < j ==> BuildLine(builds[i]).Some?
    ensures |BuildLines(builds)| == j + 1 && BuildLines(builds)[j] == Error(TypeError)
    ensures forall i :: 0 <= i < j ==> BuildLines(builds)[i] == BuildLine(builds[i]).value
  {
    if j > 0 {
      BuildLinesStop(builds[1..], j - 1);
      assert forall i :: 1 <= i < |builds| ==> builds[1..][i - 1] == builds[i];
    }
  }

  /**
   * The precedence of the three outcomes for a response object: a non-empty `data` array
   * lists its builds; otherwise `errors` gives one error line, with the first error's
   * `detail` or the JSON text of all errors; otherwise "No builds found".
   */
  lemma ResultPrecedence(members: seq<Member>, stringify: Json -> string)
    ensures var result := Obj(members);
            match Find(members, "data")
            case Some(Arr(items)) =>
              items != [] ==> ResultLines(result, stringify) == BuildLines(seq(|items|, i requires 0 <= i < |items| => Defined(items[i])))
            case _ => true
    ensures var result := Obj(members);
            var data := OptGet(Defined(result), "data");
            var errors := OptGet(Defined(result), "errors");
            HasBuilds(data) == Some(false) ==>
              ResultLines(result, stringify)
                == if !Truthy(errors) then [NoBuilds]
                   else
                     var detail := OptGet(Index0(errors), "detail");
                     [ApiErrors(if Truthy(detail) then detail else Defined(Str(stringify(errors.json))))]
    ensures var data := OptGet(Defined(Obj(members)), "data");
            HasBuilds(data).None? || (HasBuilds(data) == Some(true) && Elements(data).None?) ==>
              ResultLines(Obj(members), stringify) == [Error(TypeError)]
  {
  }

  /**
   * A `data` object whose `length` is the text of a positive number passes the `length > 0`
   * test, and then `for ... of` throws on it: the error is caught and printed.
   */
  lemma TextLengthNotIterable(n: int, stringify: Json -> string)
    requires n > 0
    ensures ResultLines(Obj([Member("data", Obj([Member("length", Str(IntText(n)))]))]), stringify) == [Error(TypeError)]
  {
    AboveZeroText(n);
  }

  /**
   * A `data` object whose `length` is an object with its own `toString`: `length > 0` throws,
   * and the error is caught and printed instead of the `errors` line or "No builds found".
   */
  lemma UnconvertibleLength(members: seq<Member>, stringify: Json -> string)
    requires OwnToString(members)
    ensures ResultLines(Obj([Member("data", Obj([Member("length", Obj(members))]))]), stringify) == [Error(TypeError)]
  {
    AboveZeroKinds(Defined(Obj(members)));
  }

  /**
   * A build whose `version` is an object with its own `toString` cannot be printed: the
   * template throws, the caught error is the only line, and the builds after it are skipped.
   */
  lemma UnconvertibleVersion(version: seq<Member>, date: string, rest: seq<Value>)
    requires OwnToString(version)
    ensures var b := Defined(Obj([Member("attributes", Obj([Member("version", Obj(version)), Member("uploadedDate", Str(date))]))]));
            BuildLines([b] + rest) == [Error(TypeError)]
  {
    var b := Defined(Obj([Member("attributes", Obj([Member("version", Obj(version)), Member("uploadedDate", Str(date))]))]));
    var attributes := [Member("version", Obj(version)), Member("uploadedDate", Str(date))];
    assert Find(attributes, "version") == Some(Obj(version));
    assert OptGet(b, "attributes") == Defined(Obj(attributes));
    assert Text(OptGet(Defined(Obj(attributes)), "version")).None?;
    assert ([b] + rest)[0] == b;
  }

  /** A build line is printed exactly when all three values of the template have text; each is shown as that text. */
  lemma BuildLineText(b: Value)
    ensures BuildLine(b).Some? <==>
              var a := OptGet(b, "attributes");
              && !IsNullish(a)
              && Text(OptGet(a, "version")).Some?
              && ShownDate(OptGet(a, "uploadedDate")).Some?
              && Text(OptGet(a, "processingState")).Some?
    ensures BuildLine(b).Some? ==>
              var a := OptGet(b, "attributes");
              BuildLine(b).value == Build(Text(OptGet(a, "version")).value, ShownDate(OptGet(a, "uploadedDate")).value,
                                          Text(OptGet(a, "processingState")).value)
  {
  }

  /**
   * The date shown is the first ten UTF-16 code units of a non-empty upload date, which for an
   * ISO 8601 timestamp are its first ten characters, and `?` when the date is missing, `null` or empty.
   */
  lemma ShownDateOfText(uploaded: Value)
    ensures uploaded == Undefined || uploaded == Defined(Null) || uploaded == Defined(Str([])) ==> ShownDate(uploaded) == Some("?")
    ensures uploaded.Defined? && uploaded.json.Arr? && uploaded.json.items != [] ==>
              ShownDate(uploaded) == JsonText(Arr(if |uploaded.json.items| <= 10 then uploaded.json.items else uploaded.json.items[..10]))
    ensures uploaded.Defined? && uploaded.json.Str? && uploaded.json.s != [] ==>
              ShownDate(uploaded) == Some(Utf16Prefix(uploaded.json.s, 10))
    ensures uploaded.Defined? && uploaded.json.Str? && uploaded.json.s != [] &&
            (forall i :: 0 <= i < |uploaded.json.s| ==> uploaded.json.s[i] as int < 0x1_0000) ==>
              var s := uploaded.json.s;
              ShownDate(uploaded) == Some(if |s| <= 10 then s else s[..10])
  {
    if uploaded.Defined? && uploaded.json.Str? && uploaded.json.s != [] &&
       (forall i :: 0 <= i < |uploaded.json.s| ==> uploaded.json.s[i] as int < 0x1_0000) {
      Utf16PrefixBmp(uploaded.json.s, 10);
    }
  }
}
