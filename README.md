# App Store Connect and Aligner scripts, modelled in Dafny

This project models four command-line scripts and proves properties about them.

- **push-metadata.js.** It reads app-listing metadata out of a Markdown document: promotional text, description, keywords, release notes, support URL and marketing URL. It then pushes the metadata to App Store Connect in three steps:
  1. look up the app's App Store version;
  2. look up that version's first localization;
  3. send a partial PATCH of that localization.

  Every request carries a freshly minted ES256 JSON Web Token in its `Authorization` header.
- **query-builds.js.** It walks a fixed registry of four apps in order. For each app it fetches the five most recently uploaded builds and prints one line per build, the first API error, or "No builds found". Errors are caught per app.
- **read-comments.py.** It loads an Aligner diagram (a JSON document of nodes). For every node that carries comments, it prints the node's label and its comment thread, attributing each comment to "You" or "Agent".
- **list-diagrams.py.** It lists every `*.json` diagram of the Aligner directory in sorted order. For each one it prints the node, edge and comment counts. A file that is not JSON gets a warning and the listing goes on.

Everything outside the scripts is a parameter of the model:

- the signer (ECDSA over the signing input) and the JSON serialisation of the token header and claims;
- the clock, read when each request is signed;
- the network, a function from request to reply;
- `JSON.parse` and `json.load`, modelled as functions that may fail;
- the file system: file existence, file contents, directory listing.

The JavaScript and Python meanings of the parsed documents are modelled once each:

- `js.dfy`: truthiness, property access that throws on `undefined`/`null`, `?.`, `for … of`, template-literal text and the `Number()` conversion behind `>` (both throw on an object that `JSON.parse` gave its own `toString` key), and string `length` and `slice` counted in UTF-16 code units.
- `py.dfy`: truthiness, `dict.get`, iteration, `len`, and a `for` loop ended by an exception.

Those are what decide which malformed documents are reported, which are skipped and which end a script.

Files, one module each:

- `wrappers.dfy`: the `Option` type.
- `bytes.dfy`: UTF-8 as `Buffer.from` produces it.
- `json.dfy`: parsed JSON. The last of repeated keys wins.
- `js.dfy`, `py.dfy`: the JavaScript and Python semantics above.
- `base64url.dfy`: `base64url`.
- `jwt.dfy`: `makeJWT`.
- `text_scan.dfy`: `indexOf`, `trim`, whitespace.
- `metadata.dfy`: `parseMetadata`.
- `localization.dfy`: `updateLocalization`.
- `api_request.dfy`: `apiRequest`.
- `push_workflow.dfy`: `main` of push-metadata.js.
- `query_builds.dfy`: query-builds.js.
- `read_comments.dfy`: read-comments.py.
- `name_order.dfy`: the order `sorted` gives file names.
- `list_diagrams.dfy`: list-diagrams.py.

Where the code and the written design of the scripts differ, the model follows the code:

- **An API error with a body that is not JSON.** `apiRequest` resolves with the raw text even when the status is 400 or more. The design says such a call fails. An empty body is read as `{}` and so is rejected when the status is 400 or more.
- **Malformed build responses.** In query-builds.js, a response body that `JSON.parse` rejects throws inside the response callback. That is outside the per-app `try`, so it ends the whole process. The design calls the per-app isolation complete. The model isolates transport errors and property-read `TypeError`s, and ends the run on a malformed body.
- **Release notes are always sent.** `main` never passes `skipWhatsNew`, so the PATCH always includes release notes when the document has them.
- **Which fence a heading pairs with.** A fenced field pairs with the first backtick after its heading (`[^`]*` in the pattern). It is not paired with "the first fenced block after the heading".

## Model

| member | source | states |
|---|---|---|
| Base64Url.EncodeIsUrlEncode | skills/tools/testflight/push-metadata.js:22-24 | Standard base64 with `=` removed, `+`→`-` and `/`→`_` is exactly unpadded base64 over the URL-safe alphabet |
| Base64Url.EncodeAlphabet | skills/tools/testflight/push-metadata.js:22-24 | Every output character is in the URL-safe alphabet; the output never contains `=`, `+`, `/` or `.` (query-builds.js:14-16 is the same function) |
| Base64Url.EncodeLength | skills/tools/testflight/push-metadata.js:22-24 | n bytes encode to 4·⌊n/3⌋ characters plus 0, 2 or 3 for n mod 3 = 0, 1, 2 |
| Base64Url.DecodeEncode | skills/tools/testflight/push-metadata.js:22-24 | Decoding the output gives back the input bytes, so the encoding loses nothing |
| Base64Url.UrlValue | skills/tools/testflight/push-metadata.js:23 | A character has a six-bit value exactly when it is in the URL-safe alphabet, and that value maps back to the character |
| Bytes.Utf8Char | skills/tools/testflight/push-metadata.js:23 | One to four bytes per character; one byte exactly for ASCII, equal to its code |
| Bytes.Utf8OfAscii | skills/tools/testflight/push-metadata.js:23 | An ASCII string encodes to its own character codes, byte for byte |
| Jwt.MakeHeader | skills/tools/testflight/push-metadata.js:27 | The header has `alg` ES256, `typ` JWT and the credential's key id |
| Jwt.MakeClaims | skills/tools/testflight/push-metadata.js:28-29 | `iat` is the current time in whole seconds, rounded down; `exp` = `iat` + 1200; `iss` is the issuer id; `aud` is `appstoreconnect-v1` |
| Jwt.TokenSegments | skills/tools/testflight/push-metadata.js:30-36 | The token has exactly two `.` and splits into the encoded header, the encoded claims and the encoded signature of `header.claims` |
| Jwt.DecodeMakeJwt | skills/tools/testflight/push-metadata.js:30-36 | Decoding the three segments recovers the header JSON, the claims JSON and the signature bytes |
| Jwt.SigningInputAscii | skills/tools/testflight/push-metadata.js:32-34 | The signed message is ASCII, so the signer receives its characters byte for byte |
| Jwt.Split | skills/tools/testflight/push-metadata.js:36 | Splitting at a separator gives at least one segment, and no segment contains the separator |
| TextScan.IndexOfSpec | skills/tools/testflight/push-metadata.js:81 | The search finds an occurrence with none earlier, and finds nothing exactly when there is no occurrence |
| TextScan.TrimSpec | skills/tools/testflight/push-metadata.js:82 | `trim` returns the slice after the leading whitespace; only whitespace is dropped, and none is left at either end |
| TextScan.TrimUnchanged | skills/tools/testflight/push-metadata.js:98 | A string without whitespace at its ends is its own trim |
| TextScan.TrimAvoids | skills/tools/testflight/push-metadata.js:82 | Trimming never introduces an occurrence of a pattern |
| TextScan.SkipSpaceSpec | skills/tools/testflight/push-metadata.js:97 | `\s*` stops at the first character that is not whitespace |
| TextScan.TokenEndSpec | skills/tools/testflight/push-metadata.js:97 | A run of URL characters stops at the first whitespace or bar character |
| Metadata.BlockValueSpec | skills/tools/testflight/push-metadata.js:81-94 | A fenced field is absent exactly when its pattern matches nowhere; when present it is the trimmed group of the leftmost match |
| Metadata.BlockValueLeftmost | skills/tools/testflight/push-metadata.js:81-94 | Any match with no match starting before it decides the field's value |
| Metadata.BlockValueShape | skills/tools/testflight/push-metadata.js:81-94 | A fenced value contains no ```` ``` ```` and has no whitespace at either end |
| Metadata.BlockRoundTrip | skills/tools/testflight/push-metadata.js:81-94 | A heading followed by a fenced block holding a trimmed value without a three-backtick fence reads back as that value; inline backticks are allowed |
| Metadata.RowValueSpec | skills/tools/testflight/push-metadata.js:97-101 | A URL field is absent exactly when its pattern matches nowhere; when present it is the group of the leftmost match |
| Metadata.RowValueLeftmost | skills/tools/testflight/push-metadata.js:97-101 | Any match with no match starting before it decides the URL |
| Metadata.RowValueShape | skills/tools/testflight/push-metadata.js:97-101 | A URL value is non-empty and contains no whitespace and no bar character |
| Metadata.RowRoundTrip | skills/tools/testflight/push-metadata.js:97-101 | A labelled table row with a bar and a URL reads back as that URL |
| Metadata.StoreField | skills/tools/testflight/push-metadata.js:81-82 | After the statement for `f`, the record holds exactly the fields, among those handled so far, whose pattern matched, each with its value |
| Metadata.ParseMetadata | skills/tools/testflight/push-metadata.js:76-104 | The record holds exactly the fields whose pattern matched, each with its extracted value |
| ApiRequest.Issue | skills/tools/testflight/push-metadata.js:39-50 | The request has the verb, path and body it was asked for, and `Bearer ` followed by a token minted at that moment |
| ApiRequest.ClassifyResponse | skills/tools/testflight/push-metadata.js:55-66 | Rejected with the status exactly when status ≥ 400 and the body is empty or parses. Otherwise: `{}` for an empty body, the parsed JSON, or the raw text when the body does not parse, whatever the status |
| ApiRequest.ClassifyNetwork | skills/tools/testflight/push-metadata.js:70 | A network rejection happens exactly on a transport error |
| Localization.UpdateAttributes | skills/tools/testflight/push-metadata.js:117-124 | A field is an attribute exactly when it is present and non-empty, and is not release notes held back by `skipWhatsNew`; each attribute has the metadata's value |
| Localization.UpdateLocalization | skills/tools/testflight/push-metadata.js:116-135 | The PATCH body has type `appStoreVersionLocalizations` and the given id, and the path ends in that id's text. An id without text (an object with its own `toString`) makes the call reject before any request. The attributes are as `UpdateAttributes` states. Release notes never appear when `skipWhatsNew` holds |
| PushWorkflow.FirstOfData | skills/tools/testflight/push-metadata.js:106-109 | `response.data?.[0]` never throws except on a `null` response |
| PushWorkflow.FirstOfCollection | skills/tools/testflight/push-metadata.js:108 | For `{data: [...]}` the lookup is the first item, or `undefined` when the list is empty; for a text body it is `undefined` |
| PushWorkflow.Select | skills/tools/testflight/push-metadata.js:182-196 | The step goes on with the first element of `data` exactly when it is truthy, its `attributes` can be read and the attribute values the progress line prints have text. It stops with "nothing found" exactly when that element is falsy. A `null` response is a TypeError, and a rejected request ends the step with that failure |
| PushWorkflow.SelectsFirstResource | skills/tools/testflight/push-metadata.js:106-114 | For a `{data: [...]}` response the step continues with the first resource, and only on that resource's truthiness, readable `attributes` and printable progress-line values |
| PushWorkflow.EmptyCollectionMissing | skills/tools/testflight/push-metadata.js:183-186 | A successful response with an empty `data` list counts as "nothing found" |
| PushWorkflow.Attributes | skills/tools/testflight/push-metadata.js:117-124 | The attributes `main` sends are exactly the document's fields with a non-empty extracted value |
| PushWorkflow.Workflow | skills/tools/testflight/push-metadata.js:147-209 | `main` sends between one and three requests; the k-th carries the k-th `Authorization` header |
| PushWorkflow.Push | skills/tools/testflight/push-metadata.js:170-209 | The step-by-step `main` (parse, two lookups with early exits, PATCH) sends the requests and reaches the outcome of `Workflow`, each request signed with a token minted when the clock reads `clock(k)` |
| PushWorkflow.Sign | skills/tools/testflight/push-metadata.js:39-47 | The k-th `apiRequest` of the run carries `Bearer ` followed by a token minted at the k-th clock reading |
| PushWorkflow.PatchFromDocument | skills/tools/testflight/push-metadata.js:200 | Called without `skipWhatsNew`, `updateLocalization` PATCHes the localization path with every field the document fills |
| PushWorkflow.NoRequestAfterStop | skills/tools/testflight/push-metadata.js:182-191 | Exactly one request is sent when the version lookup does not find a version, or when the version's `id` has no text. A version lookup that finds nothing exits with "no version"; an `id` without text exits with the TypeError `getLocalization` throws |
| PushWorkflow.NoPatchAfterStop | skills/tools/testflight/push-metadata.js:191-200 | A second request is the last exactly when the localization lookup does not find one, or when its `id` has no text. Finding nothing exits with "no localization"; an `id` without text exits with the TypeError `updateLocalization` throws. Success means three requests |
| PushWorkflow.RequestsInOrder | skills/tools/testflight/push-metadata.js:106-134 | The requests are the version GET for the app, then the localization GET whose path holds the found version's `id` as text, then a PATCH whose body id is the localization found and whose path ends in that id's text |
| PushWorkflow.EveryRequestSigned | skills/tools/testflight/push-metadata.js:39-47 | The k-th request carries the header minted for position k. With `Tokens`, that is a token minted at the k-th clock reading, so every request gets its own freshly minted token and none is cached |
| PushWorkflow.PatchSendsPresentFields | skills/tools/testflight/push-metadata.js:198-201 | The PATCH sends exactly the non-empty fields, release notes included; the run succeeds exactly when the PATCH is not rejected |
| PushWorkflow.EmptyVersionList | skills/tools/testflight/push-metadata.js:182-186 | An empty version list ends the run after one request with "no version" |
| QueryBuilds.VisitShape | skills/tools/testflight/query-builds.js:57-74 | Each app's request carries its id with `sort=-uploadedDate&limit=5` and a fresh token. The run ends exactly on a body `JSON.parse` rejects. A transport error prints one error line |
| QueryBuilds.PrintBuilds | skills/tools/testflight/query-builds.js:63-66 | The build loop prints the build lines `BuildLines` defines |
| QueryBuilds.BuildLinesInOrder | skills/tools/testflight/query-builds.js:63-66 | When every build reads cleanly, there is one line per build, in response order |
| QueryBuilds.BuildLinesStop | skills/tools/testflight/query-builds.js:63-73 | The first build whose `attributes` cannot be read ends the list with the caught error, after one line per earlier build |
| QueryBuilds.PrintResult | skills/tools/testflight/query-builds.js:62-71 | The branches print the lines `ResultLines` defines. The builds branch is taken when `data` is truthy and its `length` converts to a number above zero, text such as `"1"` included. A `length` that cannot be converted prints the caught TypeError |
| QueryBuilds.ResultPrecedence | skills/tools/testflight/query-builds.js:62-71 | A non-empty `data` array lists its builds. A `data` whose `length > 0` throws, or that passes the test but cannot be iterated, prints the caught TypeError. Otherwise a truthy `errors` gives one error line: the first error's `detail`, or the JSON text of all errors. Otherwise "No builds found" |
| QueryBuilds.TextLengthNotIterable | skills/tools/testflight/query-builds.js:62-63 | A `data` object whose `length` is the text of a positive number enters the builds branch and prints the TypeError `for … of` throws |
| QueryBuilds.UnconvertibleLength | skills/tools/testflight/query-builds.js:62-73 | A `data` whose `length` is an object with its own `toString` makes `length > 0` throw; the caught TypeError is the only line |
| QueryBuilds.UnconvertibleVersion | skills/tools/testflight/query-builds.js:63-73 | A build whose `version` is an object with its own `toString` cannot be printed: the caught TypeError is the only line and the later builds are skipped |
| QueryBuilds.BuildLineText | skills/tools/testflight/query-builds.js:64-65 | A build line is printed exactly when `attributes` can be read and the version, the shown date and the processing state all have text; the line shows those texts |
| QueryBuilds.ShownDateOfText | skills/tools/testflight/query-builds.js:65 | The shown date is the first ten UTF-16 code units of a non-empty upload date. For text within the Basic Multilingual Plane that is its first ten characters. A missing, `null` or empty date shows `?`. A non-empty array shows its first ten items joined, and throws when one of them has no text |
| QueryBuilds.VisitApp | skills/tools/testflight/query-builds.js:60-74 | The `try` body and its `catch` produce the request and report of `Visit` |
| QueryBuilds.Turn | skills/tools/testflight/query-builds.js:58-75 | One loop turn extends the run's state to cover one more entry |
| QueryBuilds.QueryAll | skills/tools/testflight/query-builds.js:57-76 | The loop's requests, output and early end are those of `Run` over the whole registry |
| QueryBuilds.RunStep | skills/tools/testflight/query-builds.js:58-75 | A turn appends the entry's request, its heading and its report |
| QueryBuilds.RunStaysCrashed | skills/tools/testflight/query-builds.js:43 | Once the process has ended, later entries change nothing |
| QueryBuilds.RunRequests | skills/tools/testflight/query-builds.js:58-61 | Each entry is requested at most once, in registry order. Without a crash, every entry is requested and reported. A crash comes only from the last entry requested |
| QueryBuilds.RegistryOrder | skills/tools/testflight/query-builds.js:50-60 | Over the four-app registry, turns that request each app under its own id request the four ids in listing order: at least one, and all four unless a turn crashes |
| QueryBuilds.RegistryRequested | skills/tools/testflight/query-builds.js:50-60 | `main` requests Pfizer, GMP, Orchestrator and MediaServer by their ids, in that order, stopping only at a body that is not JSON |
| QueryBuilds.RunCompletes | skills/tools/testflight/query-builds.js:57-76 | The process ends early exactly when some entry crashes; otherwise every entry is requested |
| QueryBuilds.OutputGrows | skills/tools/testflight/query-builds.js:58-59 | Output and requests of fewer turns are prefixes of those of more turns, so sections appear in registry order |
| QueryBuilds.MiddleFailure | skills/tools/testflight/query-builds.js:58-75 | With a transport error on the middle of three apps, all three sections are printed in order and all three requests are sent |
| ReadComments.DiagramName | skills/aligner/scripts/read-comments.py:33 | The name is the document's `name` when the key is present, else the file stem |
| ReadComments.CommentedAmongSpec | skills/aligner/scripts/read-comments.py:37 | The filter raises exactly when an item is not a dictionary; otherwise it keeps exactly the nodes with truthy `comments` |
| ReadComments.CommentedAmongAppend | skills/aligner/scripts/read-comments.py:37 | The filter keeps the original order: on `a + b` it is the kept nodes of `a` followed by those of `b` |
| ReadComments.NoCommentsOnly | skills/aligner/scripts/read-comments.py:39-41 | Without commented nodes, the only line is "No comments in" and the script returns |
| ReadComments.NoSectionWithoutComments | skills/aligner/scripts/read-comments.py:39-41 | Without commented nodes, no node heading and no comment line is printed |
| ReadComments.LabelFallback | skills/aligner/scripts/read-comments.py:47 | The label is `label` if that key exists, else `id`, else "Unknown" |
| ReadComments.Attribution | skills/aligner/scripts/read-comments.py:54-60 | A comment is shown as "You" exactly when its `from` is the string `user`; a missing `from` is shown as "Agent" |
| ReadComments.ThreadInOrder | skills/aligner/scripts/read-comments.py:53-60 | A thread of dictionaries prints one line per comment, in stored order |
| ReadComments.ExitBeforeOutput | skills/aligner/scripts/read-comments.py:22-31 | `sys.exit(1)` is called exactly for a missing file or invalid JSON, and then the error line is the only output. The process status is 1 exactly in those cases or when an exception escapes, and 0 exactly after a normal return |
| ReadComments.PrintSection | skills/aligner/scripts/read-comments.py:46-60 | The per-node loop prints the heading, the rule and the comment lines `Section` defines, stopping at the first comment that is not a dictionary |
| ReadComments.Read | skills/aligner/scripts/read-comments.py:18-62 | The script's output and ending are those of `Session` |
| Py.Get | skills/aligner/scripts/read-comments.py:33 | `get` raises `AttributeError` exactly on a value that is not a dictionary, and gives the default for a missing key |
| Py.Iterate | skills/aligner/scripts/read-comments.py:37 | Iteration raises `TypeError` exactly on values that are not lists, dictionaries or strings |
| Py.Len | skills/aligner/scripts/list-diagrams.py:44 | `len` raises `TypeError` exactly on values that are not lists, dictionaries or strings |
| Py.IterateLen | skills/aligner/scripts/list-diagrams.py:55 | A value has a length exactly when it can be iterated, and the length counts the items visited |
| Py.TruthyLen | skills/aligner/scripts/list-diagrams.py:50 | A list, dictionary or string is truthy exactly when its length is positive |
| Py.LoopRaises | skills/aligner/scripts/list-diagrams.py:33-61 | A loop raises exactly when one of its turns raises |
| Py.LoopStaysRaised | skills/aligner/scripts/read-comments.py:46-60 | After a turn raises, later turns change nothing |
| Py.LoopGrows | skills/aligner/scripts/read-comments.py:46-60 | Printed lines are never taken back |
| Py.LoopOneLineEach | skills/aligner/scripts/read-comments.py:53-60 | Turns of one line each print those lines in item order |
| JsonData.FindSpec | skills/aligner/scripts/read-comments.py:33 | A key is found exactly when a member has it, and its value is that of the last such member |
| JsonData.KeysSpec | skills/aligner/scripts/list-diagrams.py:44 | A dictionary's keys are exactly the member keys, each once |
| Js.Get | skills/tools/testflight/query-builds.js:64 | Reading a property throws exactly on `undefined` and `null` |
| Js.OptSlice | skills/tools/testflight/query-builds.js:65 | `?.slice` throws exactly on a value that is neither nullish nor a string or array |
| Js.Utf16PrefixShape | skills/tools/testflight/query-builds.js:65 | `slice(0, n)` on a string keeps at most `n` UTF-16 code units. It is a prefix, except that a surrogate pair cut in half prints as U+FFFD. A string that fits is kept whole |
| Js.Utf16PrefixBmp | skills/tools/testflight/query-builds.js:65 | Within the Basic Multilingual Plane, `slice(0, n)` keeps the first `n` characters |
| Js.NumberOfIntText | skills/tools/testflight/query-builds.js:62 | Converting the decimal text of an integer back to a number gives that integer |
| Js.AboveZeroKinds | skills/tools/testflight/query-builds.js:62 | `length > 0` holds for a number above zero and for `true`, never for `undefined` or `null`. An object is never above zero, and the comparison throws exactly when the object has its own `toString` |
| Js.AboveZeroText | skills/tools/testflight/query-builds.js:62 | A `length` that is the text of an integer is above zero exactly when the integer is |
| Js.TextFails | skills/tools/testflight/query-builds.js:65 | Conversion to text throws exactly for an object with its own `toString` key, or for an array that holds a value without text; every other value converts |
| Js.JoinTextFails | skills/tools/testflight/query-builds.js:65 | `join` throws exactly when one of the items has no text |
| Js.Elements | skills/tools/testflight/query-builds.js:63 | `for … of` visits only defined values |
| Js.TruthyReadable | skills/tools/testflight/query-builds.js:62 | A truthy value's properties can be read |
| ListDiagrams.Stem | skills/aligner/scripts/list-diagrams.py:38 | The stem of a `.json` name is the name without `.json`; any other name is its own stem |
| ListDiagrams.StemOfJsonFile | skills/aligner/scripts/list-diagrams.py:38 | `base.json` has stem `base` |
| ListDiagrams.MissingThreadCountsZero | skills/aligner/scripts/list-diagrams.py:43-46 | A node without `comments` adds 0 to the comment count |
| ListDiagrams.CommentCountAppend | skills/aligner/scripts/list-diagrams.py:43-46 | The comment count is additive over concatenated node lists, so it is the sum of the thread lengths |
| ListDiagrams.CommentedCountBounds | skills/aligner/scripts/list-diagrams.py:43-51 | Once `comment_count` is computed, `nodes_with_comments` cannot raise, and it is ≤ the number of nodes and ≤ `comment_count` |
| ListDiagrams.CommentedCountAgrees | skills/aligner/scripts/list-diagrams.py:49-51 | `nodes_with_comments` is the length of read-comments.py's `commented_nodes` for the same nodes, and raises when that filter does |
| ListDiagrams.DiscussionOnlyWithComments | skills/aligner/scripts/list-diagrams.py:57-58 | The comment line is printed exactly when `comment_count > 0` |
| ListDiagrams.DiagramNameDefault | skills/aligner/scripts/list-diagrams.py:38 | The diagram heading shows `name`, or the file stem when the key is missing |
| ListDiagrams.UnreadableIsWarned | skills/aligner/scripts/list-diagrams.py:60-61 | A file that is not JSON gets one warning line naming it, and nothing is raised |
| ListDiagrams.EscapesOnlyFromParsedFiles | skills/aligner/scripts/list-diagrams.py:33-61 | The listing ends early exactly when a file that did parse raises; malformed files never stop it |
| ListDiagrams.VisitedInSortedOrder | skills/aligner/scripts/list-diagrams.py:33 | The files are visited in sorted order, as a permutation of the directory listing, whatever order the listing came in |
| ListDiagrams.NothingToList | skills/aligner/scripts/list-diagrams.py:20-28 | A missing directory or one without `.json` files prints a single message |
| ListDiagrams.Summarize | skills/aligner/scripts/list-diagrams.py:34-61 | The `try` block for one file prints what `Summary` defines |
| ListDiagrams.VisitFile | skills/aligner/scripts/list-diagrams.py:33-61 | One loop turn extends the printed lines, and possibly the exception, to cover one more file |
| ListDiagrams.List | skills/aligner/scripts/list-diagrams.py:16-63 | The script's output and ending are those of `Listing` |
| NameOrder.Insert | skills/aligner/scripts/list-diagrams.py:33 | Inserting adds exactly one occurrence of the name |
| NameOrder.Sort | skills/aligner/scripts/list-diagrams.py:33 | The sorted list is a permutation of the input |
| NameOrder.SortSorted | skills/aligner/scripts/list-diagrams.py:33 | The sorted list is in Python string order |
| NameOrder.SortedUnique | skills/aligner/scripts/list-diagrams.py:33 | Two sorted arrangements of the same names are equal |
| NameOrder.Total | skills/aligner/scripts/list-diagrams.py:33 | Any two names are comparable |
| NameOrder.Transitive | skills/aligner/scripts/list-diagrams.py:33 | The order is transitive |
| NameOrder.Antisymmetric | skills/aligner/scripts/list-diagrams.py:33 | Names that do not come after each other are equal |

## Left out

- ECDSA P-256/SHA-256 signing with raw r‖s signatures (section 3.4 of RFC 7518). It is the `sign` parameter of the signer, because the private key and the curve arithmetic are foreign code.
- `JSON.stringify` of the token header and claims. These are the `headerJson`/`claimsJson` parameters of the signer, and the model does not fix their byte format.
- `JSON.parse`, `json.load` and `JSON.stringify` of an error list. They are parameters: parsing is a function that may fail, and numbers are integers only.
- HTTPS, promises, events and chunk accumulation. A request is a value and the network is a function from request to reply. Concurrency does not arise, since every step awaits the previous one.
- The `Content-Type` header and the request body's serialisation are not modelled.
- The credential and key file reads, and the regular expressions that pick the key id and issuer id out of the credentials file. The credentials are a parameter.
- `Date.now()` is the `clock` parameter, read when the k-th request is signed.
- Command-line argument handling is left out: usage text, the `--screenshots` flag (push-metadata.js:162) and `sys.argv`. It only decides which arguments reach the modelled functions.
- Console wording, emoji and `console.error` versus `console.log`. Each printed line is a constructor carrying the values it shows; `print()` formatting of Python values is not modelled.
- `process.exit(1)` and `sys.exit(1)` become a terminal outcome value.
- `getAppInfo` and `getAppInfoLocalization` (push-metadata.js:137-145) are never called and are not modelled.
- The progress lines of push-metadata.js `main` (push-metadata.js:164-178, 187, 196) are not modelled. Only the property reads and text conversions on lines 187 and 196 matter, and they are part of `Select`.
- Unicode whitespace is not modelled. `trim`, `\s` and the whitespace `Number()` ignores use the ASCII set: space, tab, line feed, vertical tab, form feed, carriage return.
- Js.StringToNumber: `Number()` of text is modelled only for an optionally signed run of decimal digits or `Infinity`, around ASCII whitespace. Fractions, exponents and `0x`/`0o`/`0b` literals read as NaN here.
- Js.AboveZero: inherits that gap, so `"1.5" > 0` is false in the model and true in JavaScript.
- QueryBuilds.HasBuilds: a `data` whose `length` is text such as `"1.5"` or `"1e3"` is not taken into the builds branch. In the program it is, and the loop then throws.
- QueryBuilds.PrintResult: for such a `length` it prints "No builds found" or the `errors` line, where the program prints the TypeError `for … of` throws. A `length` that is a boolean, an integer, `null`, an object (with or without its own `toString`), or text or an array whose text is a signed run of digits is handled as the program does.
- QueryBuilds.ResultPrecedence: states the branches through `HasBuilds`, so it carries the same fractional and exponent `length` gap.
- QueryBuilds.ShownDate and Js.OptSlice: strings are sequences of Unicode scalar values. A JSON string that holds a lone surrogate escape such as `"\ud800"` cannot be represented. A surrogate pair that `slice(0, 10)` cuts in half is shown as U+FFFD, which is what the console's UTF-8 output prints for the lone half.
- Js.IntText: writes integers of 10^21 and more digit by digit, where JavaScript switches to exponent notation.
- `Path.expanduser`, `Path.home`, `Path.exists` and `glob` are not modelled. File existence, file contents and the list of matched names are parameters. `OSError` while opening a file and `UnicodeDecodeError` while reading it are not modelled.
- ListDiagrams.Stem: models `Path.stem` only for names that `*.json` matched.
- Floating-point JSON numbers are not modelled: numbers are integers. `len`, truthiness and string conversion only need integers here.
- The `KeyError` clause of list-diagrams.py:60 catches nothing: `dict.get` never raises it, so the model has no such path.
