/**
 * `apiRequest` of push-metadata.js: every call signs a fresh token, sends one HTTPS request
 * to the App Store Connect API, and settles its promise from the status code and the body text
 * once the response has ended.
 */
module ApiRequest {
  import opened Wrappers
  import opened JsonData
  import Jwt
  import Localization

  const Host: string := "api.appstoreconnect.apple.com"

  datatype Verb = GET | PATCH

  /** One request as it leaves the script: method, path, `Authorization` header and the PATCH body, if any. */
  datatype Request = Request(verb: Verb, path: string, authorization: string, body: Option<Localization.Patch>)

  /** What the network delivers for one request: the `error` event, or a response with its status and its whole body. */
  datatype Reply = TransportError | Response(status: int, body: string)

  /** Why a promise is rejected: the request's `error` event or `API Error <status>`. */
  datatype Failure = Network | ApiError(status: int)

  /** How the promise of `apiRequest` settles. */
  datatype Settled = Resolved(value: Json) | Rejected(failure: Failure)

  /** The `Authorization` header of a request signed when `Date.now()` reads `nowMs`: a freshly minted token. */
  function Bearer(cred: Jwt.Credentials, nowMs: int, signer: Jwt.Signer): string
  {
    "Bearer " + Jwt.MakeJwt(cred, nowMs, signer)
  }

  /** The request `apiRequest(verb, path, body)` sends when `Date.now()` reads `nowMs`. */
  function Issue(verb: Verb, path: string, body: Option<Localization.Patch>,
                 cred: Jwt.Credentials, nowMs: int, signer: Jwt.Signer): (r: Request)
    ensures r.verb == verb && r.path == path && r.body == body
    ensures r.authorization == Bearer(cred, nowMs, signer)
  {
    Request(verb, path, Bearer(cred, nowMs, signer), body)
  }

  /**
   * The `end` handler: an empty body stands for `{}`; a body `JSON.parse` accepts is checked
   * against the status; a body it rejects lands in the `catch`, which resolves with the text itself.
   */
  function Classify(reply: Reply, parse: string -> Option<Json>): (r: Settled)
  {
    match reply
    case TransportError => Rejected(Network)
    case Response(status, body) =>
      var json := if body == [] then Some(Obj([])) else parse(body);
      match json
      case None => Resolved(Str(body))
      case Some(j) => if status >= 400 then Rejected(ApiError(status)) else Resolved(j)
  }

  // ---------------------------------------------------------------------------
  // Properties

  /**
   * A response is rejected exactly when its status is 400 or more and its body is empty or
   * parses; a rejection carries that status.  Otherwise it resolves with the parsed JSON,
   * with `{}` for an empty body, or with the raw text when the body does not parse, whatever the status.
   */
  lemma ClassifyResponse(status: int, body: string, parse: string -> Option<Json>)
    ensures var r := Classify(Response(status, body), parse);
            && (r.Rejected? <==> status >= 400 && (body == [] || parse(body).Some?))
            && (r.Rejected? ==> r.failure == ApiError(status))
            && (body == [] && status < 400 ==> r == Resolved(Obj([])))
            && (body != [] && parse(body).Some? && status < 400 ==> r == Resolved(parse(body).value))
            && (body != [] && parse(body).None? ==> r == Resolved(Str(body)))
  {
  }

  /** A transport error is the only way to be rejected without an HTTP status. */
  lemma ClassifyNetwork(reply: Reply, parse: string -> Option<Json>)
    ensures Classify(reply, parse) == Rejected(Network) <==> reply.TransportError?
  {
  }
}
