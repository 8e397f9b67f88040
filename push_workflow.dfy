/**
 * `main` of push-metadata.js: parse the listing document, then three requests in a row —
 * find the submittable App Store version, find its localization, PATCH that localization —
 * each one only once the previous one returned something usable.  Every way out other
 * than success ends the process with exit status 1.
 *
 * The network is a function from the request sent to the reply received, and the clock a
 * function from the request's position to the `Date.now()` reading when it is signed.
 */
module PushWorkflow {
  import opened Wrappers
  import opened JsonData
  import opened Js
  import opened Metadata
  import opened Localization
  import opened ApiRequest
  import Jwt

  const AppsPrefix: string := "/v1/apps/"
  const VersionsQuery: string := "/appStoreVersions?filter[appStoreState]=PREPARE_FOR_SUBMISSION,READY_FOR_SALE&limit=1"
  const VersionsPrefix: string := "/v1/appStoreVersions/"
  const LocalizationsSuffix: string := "/appStoreVersionLocalizations"

  /** `getAppStoreVersion`: the versions of the app that can still take metadata, at most one. */
  function VersionsPath(appId: string): string
  {
    AppsPrefix + appId + VersionsQuery
  }

  /** `getLocalization`: the localizations of one version; `None` is the TypeError of an id that has no text. */
  function LocalizationsPath(versionId: Value): Option<string>
  {
    match Text(versionId)
    case None => None
    case Some(t) => Some(VersionsPrefix + t + LocalizationsSuffix)
  }

  /** Why `main` ends with exit status 1. */
  datatype Fatal =
    | NoVersion                      // "No App Store version found ..."
    | NoLocalization                 // "No localization found"
    | ApiFailure(failure: Failure)   // a rejected `apiRequest`, caught by `main().catch`
    | TypeError                      // a property read of `null` or `undefined`, or a value without text, caught there too

  datatype Outcome = Done | Exit(reason: Fatal)

  /** `response.data?.[0]`; `None` is the TypeError `response.data` throws when the response is `null`. */
  function FirstOfData(response: Json): (r: Option<Value>)
    ensures r.None? <==> response == Null
  {
    match Get(Defined(response), "data")
    case None => None
    case Some(data) => Some(First(data))
  }

  /** What one lookup step leaves `main` with: the item it goes on with, nothing, or a fatal error. */
  datatype Lookup = Found(item: Value) | Missing | Failed(reason: Fatal)

  /** The attributes the progress line after the version lookup prints: `versionString` and `appStoreState`. */
  const VersionShown: seq<string> := ["versionString", "appStoreState"]

  /** The attribute the progress line after the localization lookup prints: `locale`. */
  const LocalizationShown: seq<string> := ["locale"]

  /** Each `${x.attributes.<key>}` of a progress line has text. */
  predicate Printable(attributes: Value, shown: seq<string>) {
    forall i :: 0 <= i < |shown| ==> Text(OptGet(attributes, shown[i])).Some?
  }

  /**
   * `const x = await getX(...)`, `if (!x) exit`, then the progress line that prints
   * `x.attributes.<key>` for each key of `shown`, which throws when `x.attributes` is `null`
   * or `undefined`, or when one of those values has no text.
   */
  function Select(settled: Settled, shown: seq<string>): (r: Lookup)
    ensures r.Found? ==> Truthy(r.item) && !IsNullish(OptGet(r.item, "attributes")) && Printable(OptGet(r.item, "attributes"), shown)
    ensures settled.Rejected? ==> r == Failed(ApiFailure(settled.failure))
    ensures settled == Resolved(Null) ==> r == Failed(TypeError)
    ensures settled.Resolved? && FirstOfData(settled.value).Some? ==>
              var v := FirstOfData(settled.value).value;
              && (r.Found? <==> Truthy(v) && !IsNullish(OptGet(v, "attributes")) && Printable(OptGet(v, "attributes"), shown))
              && (r.Found? ==> r.item == v)
              && (r.Missing? <==> !Truthy(v))
  {
    match settled
    case Rejected(f) => Failed(ApiFailure(f))
    case Resolved(json) =>
      match FirstOfData(json)
      case None => Failed(TypeError)
      case Some(v) =>
        if !Truthy(v) then Missing
        else
          var attributes := OptGet(v, "attributes");
          if IsNullish(attributes) || !Printable(attributes, shown) then Failed(TypeError)
          else Found(v)
  }

  /** A field the document gives a non-empty value, which is what makes `metadata.f` truthy. */
  predicate NonEmpty(v: Option<string>) {
    v.Some? && v.value != []
  }

  /** The outcome of a step that stops the workflow: `Missing` becomes the step's own message. */
  function Stop(step: Lookup, missing: Fatal): Outcome
  {
    if step.Failed? then Exit(step.reason) else Exit(missing)
  }

  const AllFields: set<Field> := {PromotionalText, Description, Keywords, WhatsNew, SupportUrl, MarketingUrl}

  lemma AllFieldsComplete(f: Field)
    ensures f in AllFields
  {
    match f
    case PromotionalText =>
    case Description =>
    case Keywords =>
    case WhatsNew =>
    case SupportUrl =>
    case MarketingUrl =>
  }

  /** The attributes `updateLocalization(id, parseMetadata(file))` sends: every field the document gives a non-empty value. */
  function Attributes(content: string): (a: map<Field, string>)
    ensures forall f :: f in a <==> NonEmpty(Extract(content, f))
    ensures forall f :: f in a ==> Some(a[f]) == Extract(content, f)
  {
    assert forall f :: f in AllFields by {
      forall f ensures f in AllFields {
        AllFieldsComplete(f);
      }
    }
    map f | f in AllFields && NonEmpty(Extract(content, f)) :: Extract(content, f).value
  }

  /** The `Authorization` header of the k-th request: a token minted when the clock reads `clock(k)`. */
  function Tokens(cred: Jwt.Credentials, signer: Jwt.Signer, clock: nat -> int): nat -> string
  {
    (k: nat) => Bearer(cred, clock(k), signer)
  }

  /**
   * What `main` does once the arguments are read, step by step: the requests it issues, in
   * order, and how the process ends.  The k-th request carries the header `mint(k)`.
   */
  function Workflow(appId: string, content: string, mint: nat -> string,
                    parse: string -> Option<Json>, network: Request -> Reply): (r: (seq<Request>, Outcome))
    ensures 1 <= |r.0| <= 3
  {
    var first := Request(GET, VersionsPath(appId), mint(0), None);
    var version := Select(Classify(network(first), parse), VersionShown);
    if !version.Found? then ([first], Stop(version, NoVersion))
    else
      match LocalizationsPath(OptGet(version.item, "id"))
      case None => ([first], Exit(TypeError))
      case Some(localizations) =>
        var second := Request(GET, localizations, mint(1), None);
        var localization := Select(Classify(network(second), parse), LocalizationShown);
        if !localization.Found? then ([first, second], Stop(localization, NoLocalization))
        else
          var id := OptGet(localization.item, "id");
          match PatchPath(id)
          case None => ([first, second], Exit(TypeError))
          case Some(path) =>
            var third := Request(PATCH, path, mint(2), Some(Patch(ResourceType, id, Attributes(content))));
            ([first, second, third],
             match Classify(network(third), parse)
             case Rejected(f) => Exit(ApiFailure(f))
             case Resolved(_) => Done)
  }

  /** `apiRequest(verb, path, body)` as the k-th request of the run: it signs a fresh token and sends it. */
  method Sign(verb: Verb, path: string, body: Option<Patch>, cred: Jwt.Credentials, signer: Jwt.Signer,
              clock: nat -> int, k: nat) returns (request: Request)
    ensures request == Request(verb, path, Tokens(cred, signer, clock)(k), body)
  {
    request := Issue(verb, path, body, cred, clock(k), signer);
  }

  /**
   * `updateLocalization(localization.id, metadata)` as `main` calls it: without `skipWhatsNew`,
   * so the PATCH carries every field the document fills.
   */
  method PatchFromDocument(id: Value, content: string, metadata: map<Field, string>) returns (path: Option<string>, body: Patch)
    requires forall f :: f in metadata <==> Extract(content, f).Some?
    requires forall f :: f in metadata ==> Some(metadata[f]) == Extract(content, f)
    ensures path == PatchPath(id) && body == Patch(ResourceType, id, Attributes(content))
  {
    path, body := UpdateLocalization(id, metadata, false);
    var expected := Attributes(content);
    forall f ensures f in body.attributes <==> f in expected {
      assert f in body.attributes <==> Sent(metadata, false, f);
    }
    assert body.attributes == expected;
  }

  /**
   * `main()` once the arguments are read: parse the document, then run the three steps,
   * each `await`ed before the next one starts and each able to end the process.
   */
  method Push(appId: string, content: string, cred: Jwt.Credentials, signer: Jwt.Signer,
              clock: nat -> int, parse: string -> Option<Json>, network: Request -> Reply)
    returns (sent: seq<Request>, outcome: Outcome)
    ensures (sent, outcome) == Workflow(appId, content, Tokens(cred, signer, clock), parse, network)
  {
    var metadata := ParseMetadata(content);

    var first := Sign(GET, VersionsPath(appId), None, cred, signer, clock, 0);
    var version := Select(Classify(network(first), parse), VersionShown);
    if !version.Found? {
      sent, outcome := [first], Stop(version, NoVersion);
      return;
    }

    var localizations := LocalizationsPath(OptGet(version.item, "id"));
    if localizations.None? {
      sent, outcome := [first], Exit(TypeError);
      return;
    }
    var second := Sign(GET, localizations.value, None, cred, signer, clock, 1);
    var localization := Select(Classify(network(second), parse), LocalizationShown);
    if !localization.Found? {
      sent, outcome := [first, second], Stop(localization, NoLocalization);
      return;
    }

    var path, body := PatchFromDocument(OptGet(localization.item, "id"), content, metadata);
    if path.None? {
      sent, outcome := [first, second], Exit(TypeError);
      return;
    }
    var third := Sign(PATCH, path.value, Some(body), cred, signer, clock, 2);
    sent := [first, second, third];
    match Classify(network(third), parse)
    case Rejected(f) =>
      outcome := Exit(ApiFailure(f));
    case Resolved(_) =>
      outcome := Done;
  }

  // ---------------------------------------------------------------------------
  // Properties

  /**
   * `data?.[0]` of a collection document is its first resource, and nothing when the
   * collection is empty; a body that was not JSON (resolved as its raw text) has no `data`.
   */
  lemma FirstOfCollection(response: Json, items: seq<Json>)
    ensures response == Obj([Member("data", Arr(items))]) ==>
              FirstOfData(response) == Some(if items == [] then Undefined else Defined(items[0]))
    ensures response.Str? ==> FirstOfData(response) == Some(Undefined)
  {
  }

  /**
   * For a collection document, the step goes on with its first resource exactly when that
   * resource is truthy and has readable `attributes`; the other resources are never looked at.
   */
  lemma SelectsFirstResource(items: seq<Json>, shown: seq<string>)
    requires items != []
    ensures var r := Select(Resolved(Obj([Member("data", Arr(items))])), shown);
            var attributes := OptGet(Defined(items[0]), "attributes");
            && (r.Found? <==> Truthy(Defined(items[0])) && !IsNullish(attributes) && Printable(attributes, shown))
            && (r.Found? ==> r.item == Defined(items[0]))
            && (r.Missing? <==> !Truthy(Defined(items[0])))
  {
    FirstOfCollection(Obj([Member("data", Arr(items))]), items);
  }

  /** A lookup whose collection is empty finds nothing, so `main` stops with that step's message. */
  lemma EmptyCollectionMissing(status: int, body: string, parse: string -> Option<Json>, shown: seq<string>)
    requires body != [] && parse(body) == Some(Obj([Member("data", Arr([]))])) && status < 400
    ensures Select(Classify(Response(status, body), parse), shown) == Missing
  {
  }

  /**
   * The workflow stops at the first step that finds nothing or fails: no localization
   * request follows a version lookup that did not find a version, or whose id has no text.
   */
  lemma NoRequestAfterStop(appId: string, content: string, mint: nat -> string, parse: string -> Option<Json>, network: Request -> Reply)
    ensures var (sent, outcome) := Workflow(appId, content, mint, parse, network);
            var version := Select(Classify(network(sent[0]), parse), VersionShown);
            && (|sent| == 1 <==> !version.Found? || Text(OptGet(version.item, "id")).None?)
            && (version.Missing? ==> outcome == Exit(NoVersion))
            && (version.Found? && Text(OptGet(version.item, "id")).None? ==> outcome == Exit(TypeError))
            && (outcome == Exit(NoVersion) ==> |sent| == 1)
  {
  }

  /**
   * No PATCH follows a localization lookup that did not find a localization, or whose id has
   * no text, and the run succeeds only after all three requests.
   */
  lemma NoPatchAfterStop(appId: string, content: string, mint: nat -> string, parse: string -> Option<Json>, network: Request -> Reply)
    ensures var (sent, outcome) := Workflow(appId, content, mint, parse, network);
            && (outcome == Exit(NoLocalization) ==> |sent| == 2)
            && (outcome == Done ==> |sent| == 3)
            && (|sent| > 1 ==>
                  var localization := Select(Classify(network(sent[1]), parse), LocalizationShown);
                  && (|sent| == 2 <==> !localization.Found? || Text(OptGet(localization.item, "id")).None?)
                  && (localization.Missing? ==> outcome == Exit(NoLocalization))
                  && (localization.Found? && Text(OptGet(localization.item, "id")).None? ==> outcome == Exit(TypeError)))
  {
  }

  /**
   * The requests, in order: the version lookup for the app, the localization lookup for the
   * version found, and a PATCH whose body names the localization found and whose path ends
   * with that same id.
   */
  lemma RequestsInOrder(appId: string, content: string, mint: nat -> string, parse: string -> Option<Json>, network: Request -> Reply)
    ensures var (sent, outcome) := Workflow(appId, content, mint, parse, network);
            && sent[0].verb == GET && sent[0].path == VersionsPath(appId) && sent[0].body.None?
            && (|sent| > 1 ==>
                  var id := OptGet(Select(Classify(network(sent[0]), parse), VersionShown).item, "id");
                  && sent[1].verb == GET && sent[1].body.None?
                  && Text(id).Some? && sent[1].path == VersionsPrefix + Text(id).value + LocalizationsSuffix)
            && (|sent| > 2 ==>
                  var localization := Select(Classify(network(sent[1]), parse), LocalizationShown);
                  && sent[2].verb == PATCH && sent[2].body.Some?
                  && sent[2].body.value.kind == "appStoreVersionLocalizations"
                  && sent[2].body.value.id == OptGet(localization.item, "id")
                  && Text(sent[2].body.value.id).Some? && sent[2].path == PatchPrefix + Text(sent[2].body.value.id).value)
  {
  }

  /** The k-th request carries the k-th header: with `Tokens`, a token minted when the clock reads `clock(k)`. */
  lemma EveryRequestSigned(appId: string, content: string, mint: nat -> string,
                           parse: string -> Option<Json>, network: Request -> Reply)
    ensures var sent := Workflow(appId, content, mint, parse, network).0;
            forall k :: 0 <= k < |sent| ==> sent[k].authorization == mint(k)
  {
  }

  /**
   * The PATCH sends exactly the fields the document gives a non-empty value, each with that
   * value; release notes go along whenever they are present, since `main` never holds them back.
   * The process ends successfully exactly when the PATCH is not rejected.
   */
  lemma PatchSendsPresentFields(appId: string, content: string, mint: nat -> string, parse: string -> Option<Json>, network: Request -> Reply)
    ensures var (sent, outcome) := Workflow(appId, content, mint, parse, network);
            |sent| == 3 ==>
              var attributes := sent[2].body.value.attributes;
              && (forall f :: f in attributes <==> Extract(content, f).Some? && Extract(content, f).value != [])
              && (forall f :: f in attributes ==> Extract(content, f) == Some(attributes[f]))
              && (outcome == Done <==> Classify(network(sent[2]), parse).Resolved?)
  {
  }

  /** Given a version list that comes back empty, `main` issues no further request and exits with the "no version" message. */
  lemma EmptyVersionList(appId: string, content: string, mint: nat -> string, parse: string -> Option<Json>, network: Request -> Reply)
    requires var first := Request(GET, VersionsPath(appId), mint(0), None);
             && network(first).Response? && network(first).status < 400 && network(first).body != []
             && parse(network(first).body) == Some(Obj([Member("data", Arr([]))]))
    ensures Workflow(appId, content, mint, parse, network).1 == Exit(NoVersion)
    ensures |Workflow(appId, content, mint, parse, network).0| == 1
  {
    var first := Request(GET, VersionsPath(appId), mint(0), None);
    var empty := Obj([Member("data", Arr([]))]);
    assert Classify(network(first), parse) == Resolved(empty);
    assert Find(empty.members, "data") == Some(Arr([]));
    assert FirstOfData(empty) == Some(Undefined);
    assert Select(Classify(network(first), parse), VersionShown) == Missing;
  }
}
