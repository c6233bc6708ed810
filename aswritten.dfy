/** The three places where publisher.js, as written, does not do what the surrounding code
    evidently means it to do. Each is modelled here as written; the intended behaviour is the one
    the rest of the model uses. */
module AsWritten {
  import opened Wrappers
  import opened Strings
  import opened Json
  import opened Assoc
  import opened ResponseBuffer
  import opened Negotiation
  import opened Serializers
  import opened Publisher

  // ---------------------------------------------------------------- type(context)

  /** `type(context)` as written: it stores the route's type in `route` but compares `type`, a name
      declared nowhere, and reading an undeclared name throws a ReferenceError in any mode, so every
      call throws before any comparison is made. */
  function TypeAsWritten(kind: string): (r: Result<string>)
    ensures r.Failure? && r.error.ReferenceError?
  {
    Failure(ReferenceError("type"))
  }

  /** The intended `type(context)` always has an answer, the as-written one never does. */
  lemma TypeFinding(kind: string)
    ensures TypeAsWritten(kind) != Success(MimeType(kind))
    ensures MimeType(kind) in {"application/xml", "text/html", "application/json", "text/plain"}
  {
  }

  /** `writeHead(context)` as written: when content-type is not yet set, the call to `type` throws
      after content-encoding has already been stored, and no head reaches the transport. */
  method WriteHeadAsWritten(p: Publisher, ctx: Context, response: Transport) returns (r: Outcome)
    requires p.Valid()
    modifies p`headers, response
    ensures p.Valid()
    ensures old(response.headersSent) ==>
      r == Pass && p.headers == old(p.headers) && response.heads == old(response.heads)
    ensures !old(response.headersSent) && Get(old(p.headers), ContentType).None? ==>
      && r == Fail(ReferenceError("type"))
      && p.headers == PutIfAbsent(old(p.headers), ContentEncoding,
                                  EncodingName(Negotiate(AcceptString(ctx.acceptEncoding))))
      && response.headersSent == old(response.headersSent)
      && response.heads == old(response.heads)
    ensures !old(response.headersSent) && Get(old(p.headers), ContentType).Some? ==>
      && r == Pass
      && p.headers == HeadHeaders(old(p.headers), EncodingName(Negotiate(AcceptString(ctx.acceptEncoding))),
                                  MimeType(ctx.route.kind), ctx.cookies)
      && response.headersSent
      && response.heads == old(response.heads) + [Head(p.statusCode, p.headers)]
  {
    if response.headersSent {
      return Pass;
    }
    HeaderNames();
    p.DefaultEncoding(ctx);
    var current := p.Header(ContentType, "");
    if current == Stored(None) {
      var t := TypeAsWritten(ctx.route.kind);
      return Fail(t.error);
    }
    if ctx.cookies != "" {
      current := p.Header(SetCookie, ctx.cookies);
    }
    response.WriteHead(p.statusCode, p.headers);
    r := Pass;
  }

  /** A fresh publisher on a fresh response: as written no head is sent, as intended exactly one. */
  method WriteHeadCounterexample(ctx: Context) returns (asWritten: nat, intended: nat)
    ensures asWritten == 0 && intended == 1
  {
    var p := new Publisher();
    var t := new Transport();
    var outcome := WriteHeadAsWritten(p, ctx, t);
    asWritten := |t.heads|;
    var q := new Publisher();
    var u := new Transport();
    q.WriteHead(ctx, u);
    intended := |u.heads|;
  }

  // ---------------------------------------------------------------- toArray()

  /** What `this` is when `toArray` runs: the pipes call it detached from its object (undefined in
      strict mode); called as a method it is the publisher's public object, which has no `body`. */
  datatype Receiver = Unbound | PublicObject

  /** `toArray()` as written reads `this.body`: on undefined that throws, on the public object it is
      undefined and the `for ... in` loop over it runs zero times. */
  function ToArrayAsWritten(receiver: Receiver, body: Body): (r: Result<seq<Value>>)
    ensures receiver == Unbound ==> r.Failure? && r.error.TypeError?
    ensures receiver == PublicObject ==> r == Success([])
  {
    match receiver
    case Unbound => Failure(TypeError("Cannot read properties of undefined (reading 'body')"))
    case PublicObject => Success([])
  }

  /** The JSON pipe as written: the sync branch writes the body, the async branch calls the detached
      `toArray` and throws before anything is written. */
  function JsonPipeAsWritten(body: Body, sync: bool): (r: Result<seq<Chunk>>)
    ensures r.Success? <==> sync
  {
    if sync then Success([ValueChunk(Nested(body)), EndOfStream])
    else
      match ToArrayAsWritten(Unbound, body)
      case Failure(e) => Failure(e)
      case Success(entries) => Success([ValueChunk(Arr(entries)), EndOfStream])
  }

  /** The text pipe as written: it always calls the detached `toArray`, so it always throws. */
  function TextPipeAsWritten(body: Body): (r: Result<seq<Chunk>>)
    ensures r.Failure?
  {
    match ToArrayAsWritten(Unbound, body)
    case Failure(e) => Failure(e)
    case Success(entries) => Success([TextChunk(JoinLines(entries)), EndOfStream])
  }

  /** Only the sync JSON pipe agrees with the intended one; the async JSON and the text pipes never do. */
  lemma PipeFinding(body: Body, sync: bool)
    ensures JsonPipeAsWritten(body, sync) == Success([ValueChunk(JsonPayload(body, sync)), EndOfStream]) <==> sync
    ensures TextPipeAsWritten(body) != Success([TextChunk(TextPayload(body)), EndOfStream])
  {
  }

  /** Even bound to its object, `toArray()` loses what was pushed. */
  lemma ToArrayFinding()
    ensures var body := ResponseBuffer.Push([], "a", "h", Str("x"));
      && ToArrayAsWritten(PublicObject, body) == Success([])
      && Flatten(body) == [Str("x")]
  {
    var none: Handlers := [];
    var handlers: Handlers := [("h", Str("x"))];
    assert HandlersOf([], "a") == none;
    assert Put(none, "h", Str("x")) == handlers;
    var body: Body := [("a", handlers)];
    assert ResponseBuffer.Push([], "a", "h", Str("x")) == body;
    assert body[1..] == [];
    assert Contents(handlers) == [Str("x")];
  }

  // ---------------------------------------------------------------- write(context)

  /** `write(context)` as written: after the head it calls `writeContent()` without the context, whose
      first statement reads `context.get` on undefined and throws. No body is ever delivered. */
  method WriteAsWritten(p: Publisher, ctx: Context, response: Transport) returns (r: Outcome)
    requires p.Valid()
    modifies p`headers, response
    ensures p.Valid()
    ensures r.Fail?
    ensures Get(old(p.headers), ContentType).Some? || old(response.headersSent) ==>
      r == Fail(TypeError("Cannot read properties of undefined (reading 'get')"))
  {
    r := WriteHeadAsWritten(p, ctx, response);
    if r.Fail? {
      return;
    }
    r := Fail(TypeError("Cannot read properties of undefined (reading 'get')"));
  }
}
