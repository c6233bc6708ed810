# gereji publisher — a Dafny model

`publisher.js` builds one publisher object per HTTP response. The object collects the output of
every handler that runs for a request, keyed by app and then by handler. It writes the response
head exactly once: status, lower-cased headers, a negotiated `Content-Encoding`, a route-derived
`Content-Type` and cookies. It then serialises the collected body as JSON, XML, HTML (XSLT over
the XML) or plain text, behind an optional gzip or deflate stage.

This project models that object and proves what it promises. The modules are:

- `Wrappers`: `Option`, `Result`, `Outcome` and the JavaScript exceptions the code can throw.
- `Strings`: `join`, `split`, `indexOf`, `toLowerCase` and the one-trailing-slash strip.
- `Json`: the JSON-like content values, and the decimal rendering of integers with its inverse.
- `Assoc`: a JavaScript object used as a dictionary. It is an association list whose keys keep the
  order of their first assignment.
- `ResponseBuffer`: the two-level body `app -> handler -> content`, `push` on it, and its
  app-major, handler-minor flattening.
- `Negotiation`: `encoding`, `type` and the `stream` dispatch.
- `Serializers`: the payloads of the JSON, text and XML pipes, including the recursive `transform`.
- `Stylesheet`: the `xsl` path resolver. The filesystem is replaced by an oracle.
- `Publisher`: the transport (the HTTP response's `headersSent` flag and a log of its `writeHead`
  calls) and the `Publisher` class, whose fields are the closure's `statusCode`, `headers` and
  `body`.
- `AsWritten`: the three places where the code as written does not do what it evidently means,
  modelled as written (see "## Findings").

Code that mutates state is modelled imperatively. This covers `init`, `push`, `header`,
`statusCode`, `writeHead`, the nested loops of `toArray`, the loop of `transform`, the step-wise
`encoding` and the slot overwrites of `xsl`. Each such method is proved against a specification
function, and the properties are lemmas about those functions. `type` and the `stream` switch
are plain functions.

Each pipe is a one-shot producer that writes the payload and then `null`. It is modelled as
returning the two-element chunk sequence `[payload, EndOfStream]`.

The modelled value domain:

- JavaScript falsiness of header values and status codes is `""` and `0`.
- Numbers are integers.
- `Null` stands for both `null` and `undefined`.
- Numeric keys (`!isNaN(key)`) are the non-empty strings of ASCII digits.

## Model

| member | source | states |
|---|---|---|
| `ResponseBuffer.Push` | publisher.js:16-20 | after `push(app, handler, content)` the pair reads back `content`, every other (app, handler) pair reads what it read before, and the app order is unchanged except that a new app goes last |
| `ResponseBuffer.PushWellFormed` | publisher.js:16-20 | pushing keeps every app and every handler unique: no duplicate ever appears |
| `ResponseBuffer.PushExistingPair` | publisher.js:16-20 | re-pushing an existing pair leaves the pair order unchanged and replaces that pair's entry of the flattening in place, every other entry unchanged |
| `ResponseBuffer.PushKeepsPairs` | publisher.js:16-20 | re-pushing an existing pair leaves every (app, handler) pair where it was |
| `ResponseBuffer.PushNewApp` | publisher.js:16-20 | pushing to a new app appends one pair and one content, after all existing ones |
| `ResponseBuffer.PushNewHandler` | publisher.js:16-20 | a new handler of an existing app is inserted right after that app's last handler, and everything else keeps its place |
| `ResponseBuffer.FlattenPairs` | publisher.js:140-148 | the k-th entry of `toArray()` is the content stored under the k-th (app, handler) pair in app-major, handler-minor order, with one entry per pair |
| `ResponseBuffer.PairsDistinct` | publisher.js:140-148 | no (app, handler) pair is enumerated twice |
| `ResponseBuffer.PairsComplete` | publisher.js:140-148 | a pair is enumerated exactly when something is stored under it |
| `ResponseBuffer.PairsFound` | publisher.js:140-148 | every pair under which content is stored is visited by the nested loops |
| `ResponseBuffer.FlattenAppend` | publisher.js:140-148 | the flattening of consecutive apps is the concatenation of their flattenings, so the outer loop can go app by app |
| `ResponseBuffer.Nested` | publisher.js:89-90 | the body written by the sync JSON pipe is an object with the body's apps as keys, in order |
| `Assoc.Put` | publisher.js:18 | assigning `o[k] = v` makes `o[k]` read `v` and changes no other key; an existing key keeps its position and a new one goes last |
| `Assoc.Get` | publisher.js:68 | `o[k]` is defined exactly when `k` has been assigned |
| `Assoc.PutPut` | publisher.js:17-18 | assigning the same key twice is the same as assigning only the second value, so `push`'s two-step update equals a single assignment |
| `Assoc.PutDistinct` | publisher.js:18 | assignment never duplicates a key |
| `Strings.Lower` | publisher.js:62 | the lower-cased name has the same length, contains no upper-case letter, and an already lower-case name is unchanged |
| `Strings.LowerIdempotent` | publisher.js:62 | lower-casing a stored key again finds the same key |
| `Strings.IndexOf` | publisher.js:171-174 | `indexOf` returns the first position where the pattern occurs, and -1 exactly when it occurs nowhere |
| `Strings.StripTrailingSlash` | publisher.js:151 | `replace(/\/$/, "")` removes one trailing `/` when there is one and otherwise returns the string unchanged |
| `Strings.SplitJoin` | publisher.js:134 | joining pieces that contain no separator can be undone by splitting on it |
| `Publisher.Publisher.constructor` | publisher.js:6-15 | the factory followed at once by `init()`: status 200, no headers and an empty body |
| `Publisher.Publisher.Init` | publisher.js:11-15 | `init()` resets status to 200 and clears headers and body |
| `Publisher.Publisher.Push` | publisher.js:16-20 | the method updates the body as `ResponseBuffer.Push` specifies and keeps apps and handlers unique |
| `Publisher.Publisher.StatusCode` | publisher.js:56-60 | a non-zero code replaces the status; zero leaves it; the current status is returned either way |
| `Publisher.Publisher.Header` | publisher.js:61-69 | a truthy value is stored under the lower-cased name and `this` is returned for chaining; a falsy value changes nothing and returns the stored value; header names remain lower-case and unique |
| `Publisher.Publisher.Headers` | publisher.js:70-72 | `headers()` returns the current header map |
| `Publisher.Publisher.Encoding` | publisher.js:168-176 | the step-wise assignment yields exactly the negotiated encoding `Negotiation.Negotiate` characterises |
| `Publisher.Publisher.DefaultEncoding` | publisher.js:29-30 | content-encoding is set to the negotiated encoding only when missing |
| `Publisher.Publisher.DefaultType` | publisher.js:31-32 | content-type is set to the route's MIME type only when missing |
| `Publisher.Publisher.FillHeaders` | publisher.js:29-35 | the three header steps of `writeHead` produce `HeadHeaders` of the old headers |
| `Publisher.Publisher.WriteHead` | publisher.js:25-38 | when the head was already sent nothing changes and the transport is not called; otherwise the headers are completed and the transport receives exactly one head, with the current status and the completed headers |
| `Publisher.Transport.WriteHead` | publisher.js:36 | the transport logs the head it receives and marks the head as sent |
| `Publisher.WriteHeadTwice` | publisher.js:25-38 | however often `writeHead` runs, the transport receives at most one head |
| `Publisher.PutIfAbsent` | publisher.js:29-32 | an existing header wins over the default, a missing one takes it, nothing else changes, and the existing keys keep their order |
| `Publisher.HeadHeadersSpec` | publisher.js:25-38 | existing content-encoding and content-type are kept and missing ones filled in; set-cookie is replaced only when there are cookies; every other header is untouched; earlier headers keep their order |
| `Publisher.HeadHeadersOk` | publisher.js:29-35 | the completed headers are still lower-case, unique and non-empty |
| `Publisher.PutHeaderOk` | publisher.js:61-69 | storing a truthy value under a lower-case name keeps the header map lower-case, unique and non-empty |
| `Publisher.StreamOutputShape` | publisher.js:73-84 | every non-html pipe writes exactly two chunks, the payload and then `null`, and the payload's kind is the one matching the MIME type `type` derives for the route |
| `Publisher.Publisher.ToArray` | publisher.js:140-148 | the nested loops produce the app-major, handler-minor flattening of the body |
| `Publisher.Publisher.StreamJSON` | publisher.js:85-97 | the JSON pipe writes the nested body when the route is sync, otherwise the flattened list, then `null` |
| `Publisher.Publisher.StreamXML` | publisher.js:108-116 | the XML pipe writes the declaration followed by `transform({data: body})`, then `null` |
| `Publisher.Publisher.StreamText` | publisher.js:130-139 | the text pipe writes `toArray().join('\n')`, then `null` |
| `Publisher.Publisher.Stream` | publisher.js:73-84 | `stream` picks the serialiser by the route's type: json, xml and html each get their own, and anything else gets text |
| `Publisher.Publisher.WriteContent` | publisher.js:39-55 | the body goes through the compression stage named by the negotiated encoding, and the serialiser output is that of `stream` |
| `Publisher.Publisher.Write` | publisher.js:21-24 | `write` sends the head at most once and then delivers the negotiated, serialised body |
| `Negotiation.Negotiate` | publisher.js:168-176 | gzip exactly when the header contains `gzip`; deflate exactly when it contains `deflate` but not `gzip`; identity otherwise |
| `Negotiation.NegotiateExamples` | publisher.js:168-176 | gzip wins in either order and with q-values; an empty header and an absent one (`"undefined"`) give identity |
| `Negotiation.TypeMatchesStream` | publisher.js:73-84 | the MIME type from `type` and the serialiser from `stream` agree for every route type |
| `Serializers.NestedKeepsProvenance` | publisher.js:89-90 | in the sync JSON payload each app's handlers are exactly what was pushed under it |
| `Serializers.JsonExample` | publisher.js:85-97 | a two-app body gives its nested object when sync and its two contents in order when not |
| `Serializers.TextRoundTrip` | publisher.js:133-134 | the text payload has exactly one line per entry of `toArray()`, with no separator before the first or after the last |
| `Serializers.TextOfEmptyBody` | publisher.js:133-134 | an empty body gives the empty text |
| `Serializers.TextExample` | publisher.js:130-139 | two single-handler apps give `"x\ny"` |
| `Serializers.TagNameRule` | publisher.js:102 | a key is its own tag name exactly when it is not numeric; a numeric key is prefixed with `node-`, and no tag name is numeric |
| `Serializers.ArrayElementNames` | publisher.js:101-105 | the i-th array element becomes a `node-i` element |
| `Serializers.NullIsEmptyElement` | publisher.js:103-104 | a null or undefined value gives an empty element |
| `Serializers.NumberElement` | publisher.js:103 | a number leaf is written as its decimal string, which parses back to the number |
| `Serializers.XmlDocumentShape` | publisher.js:109-111 | the XML output is the declaration and then one `data` element, whose lines are one element per app, in app order, each joining its handler lines by `,` |
| `Serializers.XmlDocumentOfBody` | publisher.js:109-111 | the second line is the `data` element wrapping the rendering of the nested body |
| `Serializers.XmlExample` | publisher.js:109-111 | `{a: {h1: 1}}` gives `["<?xml version=\"1.0\"?>", "<data><a><h1>1</h1></a></data>"]` |
| `Serializers.XmlExampleBody` | publisher.js:99-107 | `{a: {h1: 1}}` renders as `<a><h1>1</h1></a>` |
| `Serializers.SingleElement` | publisher.js:99-107 | an object with one non-numeric key renders as that one element around its child's rendering |
| `Serializers.ElementFor` | publisher.js:102-104 | one loop iteration emits the element for its key and the rendering of its value |
| `Serializers.Transform` | publisher.js:99-107 | the loop with `push` and recursion computes exactly the recursive definition of `transform` |
| `Json.NatToStringRoundTrip` | publisher.js:102 | the decimal name of an array index reads back as that index |
| `Json.IntToStringRoundTrip` | publisher.js:103 | `String(n)` of an integer parses back to `n` |
| `Stylesheet.TemplatePathLayout` | publisher.js:150-155 | the candidate is `base/templates/theme/stylesheet`, with one trailing slash of the base removed |
| `Stylesheet.TrailingSlashIgnored` | publisher.js:151 | a base with one trailing slash gives the same path as the same base without it |
| `Stylesheet.Xsl` | publisher.js:149-163 | an existing candidate is returned unchanged; otherwise, with no settings.json, `require` throws; otherwise the result is the path under the inherited theme, one level only, whether or not it exists |
| `AsWritten.TypeAsWritten` | publisher.js:164-167 | as written, `type(context)` throws a ReferenceError for every route |
| `AsWritten.TypeFinding` | publisher.js:164-167 | the intended mapping always has a MIME value, the as-written one never does |
| `AsWritten.WriteHeadAsWritten` | publisher.js:25-38 | as written, with no content-type preset, `writeHead` stores content-encoding and then throws, and no head reaches the transport |
| `AsWritten.WriteHeadCounterexample` | publisher.js:31-32 | on a fresh publisher and response, the as-written `writeHead` sends no head and the intended one sends one |
| `AsWritten.ToArrayAsWritten` | publisher.js:140-148 | as written, `toArray` detached from its object throws a TypeError; bound to the public object it returns nothing |
| `AsWritten.JsonPipeAsWritten` | publisher.js:85-97 | as written, the JSON pipe succeeds exactly when the route is sync |
| `AsWritten.TextPipeAsWritten` | publisher.js:130-139 | as written, the text pipe always throws |
| `AsWritten.PipeFinding` | publisher.js:86-91 | the as-written JSON pipe agrees with the intended one exactly when the route is sync, and the as-written text pipe never agrees |
| `AsWritten.ToArrayFinding` | publisher.js:142 | after one push the as-written `toArray()` is empty and the intended one is the pushed content |
| `AsWritten.WriteAsWritten` | publisher.js:21-24 | as written, `write` always throws; once the head has been written the error is the TypeError from `writeContent()` reading `context.get` on undefined |

## Left out

- zlib: the gzip and deflate streams are a foreign library. `WriteContent` only names the
  compression stage it would select.
- `streamHTML` (publisher.js:118-129): the Saxon jar path, `require('saxon-stream2')`, the XSLT
  process, its timeout and the swallowed exception are an external process. The html pipe's output
  is the opaque `ThroughStylesheet`. `Stylesheet.Xsl` still models the stylesheet path it would
  use.
- `fs.existsSync` and `require` of `settings.json` are an oracle (`Stylesheet.Files`): a set of
  existing paths and a map from settings path to its `inherits` value. Module caching, JSON parse
  errors and resolving a relative path against the module's directory are not modelled.
- Node `stream` objects, the HTTP response beyond its `headersSent` flag and `writeHead` calls,
  and `context.get` are not modelled. The context is a record of the values read from it.
  Writing a non-string chunk to a byte stream is not modelled.
- Cookie serialisation (`toSetCookieString`) is an external collaborator. The cookie string is an
  input.
- The time at which a stream is created versus piped is not modelled. The payload is computed
  from the body at the time of the call.
- `Publisher.Publisher.StatusCode`: status codes are integers and header values strings. Other
  JavaScript values and their truthiness are not modelled.
- `Strings.Lower`: only ASCII letters are lower-cased. Unicode case mapping is not modelled.
- `Serializers.TagNameRule`: numeric keys are abstracted as non-empty ASCII digit strings.
  `isNaN` on strings such as `""`, `" 1"` or `"1e3"` is not modelled.
- `Serializers.Transform`, `ResponseBuffer.Push`, `ResponseBuffer.PushNewApp`,
  `ResponseBuffer.FlattenPairs`, `Publisher.Publisher.ToArray`: keys enumerate in insertion order.
  JavaScript's `for...in` visits integer-like keys first, in numeric order. So an app or handler
  named like `"1"` comes before earlier string-named ones in `toArray()` and in the XML. That
  reordering is not modelled.
- `ResponseBuffer.Push`, `Assoc.Put`: keys are modelled as own data properties of a plain
  object. Names inherited from `Object.prototype` are not modelled: `__proto__` has a setter that
  ignores primitive values, and `constructor` or `toString` read a shared inherited function that
  `push` would then write handlers onto.
- `Publisher.Publisher.Headers`: the returned map is a snapshot of the headers. The source returns
  the live `self.headers` object. Writes through it skip `header`'s lower-casing and its
  falsy-value rule, for example a mixed-case `Content-Type` that `writeHead` would not find. Such
  writes are not modelled, so `Valid()` cannot be broken from outside.
- `Publisher.Publisher.constructor`: it is the factory followed at once by `init()`. Before
  `init()` runs, `self` is an empty object. In that state `push`, `header(k, v)` and `writeHead`
  throw a TypeError, and `statusCode()` returns `undefined`. That state is not modelled.
- `Json.IntToStringRoundTrip`: numbers are integers. Floating point and its `String()` formatting
  (exponents, `NaN`, `-0`) are not modelled.
- `Serializers.TextRoundTrip`: the text join coerces non-string contents as `Array.prototype.join`
  does for the modelled values (`null` gives "", arrays are comma-joined, objects give
  `[object Object]`). The round trip is stated for contents without newlines.
- `push` and `header` return `this` for chaining. Chaining is modelled only as the `Chained` reply
  of `header`.

## Findings

| source | as written | input that shows it | evidently intended | confidence | as-written member | corrected member |
|---|---|---|---|---|---|---|
| publisher.js:164-167 | `type` assigns the route type to `route` but compares `type`, which is declared nowhere, so reading it throws a ReferenceError (in strict and sloppy mode alike); `writeHead` then stops after setting content-encoding | any `writeHead` with no content-type preset, e.g. a fresh publisher on a fresh response | the MIME type of `route.type` | not executed | `AsWritten.WriteHeadCounterexample` | `Negotiation.TypeMatchesStream` |
| publisher.js:86, 131, 142 | `toArray` is copied into a local and called detached, so `this` is undefined and `this.body` throws a TypeError; even bound, `this` is the public object, whose `body` is undefined, so the result would be `[]` | an async JSON route or any text route; after `push("a", "h", "x")`, `toArray()` bound gives `[]` | the contents of `self.body`, flattened | not executed | `AsWritten.PipeFinding` | `Publisher.Publisher.ToArray` |
| publisher.js:23 | `write` calls `this.writeContent()` without the context, whose first statement reads `context.get` on undefined | any `write(context)` | `this.writeContent(context)` | not executed | `AsWritten.WriteAsWritten` | `Publisher.Publisher.Write` |
