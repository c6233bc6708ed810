/** The per-response publisher object: it collects handler output, writes the response head once
    and pipes the body through the serialiser the route asks for. */
module Publisher {
  import opened Wrappers
  import opened Strings
  import opened Json
  import opened Assoc
  import opened ResponseBuffer
  import opened Negotiation
  import opened Serializers
  import Stylesheet

  datatype Route = Route(kind: string, sync: bool, stylesheet: string)

  /** What the publisher reads from its request context. */
  datatype Context = Context(
    acceptEncoding: Option<string>, // request.headers["accept-encoding"]
    route: Route,
    cookies: string,                // cookies.toSetCookieString()
    theme: string,                  // site.settings.theme
    basePath: string,               // settings.path
    files: Stylesheet.Files)

  /** One `writeHead(statusCode, headers)` call as the transport received it. */
  datatype Head = Head(status: int, headers: List<string>)

  /** The HTTP response, as far as the publisher uses it: its sent flag and the heads written to it. */
  class Transport {
    var headersSent: bool
    var heads: seq<Head>

    constructor ()
      ensures !headersSent && heads == []
    {
      headersSent := false;
      heads := [];
    }

    method WriteHead(status: int, headers: List<string>)
      modifies this
      ensures headersSent && heads == old(heads) + [Head(status, headers)]
    {
      heads := heads + [Head(status, headers)];
      headersSent := true;
    }
  }

  /** Lower-case names, each once, each with a non-empty (truthy) value. */
  ghost predicate HeadersOk(h: List<string>) {
    Distinct(h) && forall i :: 0 <= i < |h| ==> IsLower(h[i].0) && h[i].1 != ""
  }

  const ContentEncoding: string := "content-encoding"
  const ContentType: string := "content-type"
  const SetCookie: string := "set-cookie"

  lemma HeaderNames()
    ensures IsLower(ContentEncoding) && IsLower(ContentType) && IsLower(SetCookie)
    ensures ContentEncoding != ContentType && ContentEncoding != SetCookie && ContentType != SetCookie
  {
    assert ContentType[8] != ContentEncoding[8];
    assert SetCookie[0] != ContentType[0] && SetCookie[0] != ContentEncoding[0];
  }

  lemma PutHeaderOk(h: List<string>, name: string, value: string)
    requires HeadersOk(h) && IsLower(name) && value != ""
    ensures HeadersOk(Put(h, name, value))
  {
    PutDistinct(h, name, value);
    if name in Keys(h) {
      PutExisting(h, Find(h, name), value);
    } else {
      PutNew(h, name, value);
    }
  }

  /** `if(!this.header(k)) this.header(k, v)`: a header that is already set wins. */
  function PutIfAbsent(h: List<string>, k: string, v: string): (r: List<string>)
    ensures Get(r, k) == if Get(h, k).Some? then Get(h, k) else Some(v)
    ensures forall k' :: k' != k ==> Get(r, k') == Get(h, k')
    ensures Keys(h) <= Keys(r)
  {
    if Get(h, k).Some? then h else Put(h, k, v)
  }

  /** The headers `writeHead` sends: content-encoding and content-type filled in only when missing,
      set-cookie set only when there are cookies. */
  function HeadHeaders(h: List<string>, encoding: string, mime: string, cookies: string): List<string> {
    var h2 := PutIfAbsent(PutIfAbsent(h, ContentEncoding, encoding), ContentType, mime);
    if cookies != "" then Put(h2, SetCookie, cookies) else h2
  }

  /** A header that was already set is kept, a missing one is filled in, set-cookie appears only
      with cookies, every other header is untouched and the existing headers keep their order. */
  lemma HeadHeadersSpec(h: List<string>, encoding: string, mime: string, cookies: string)
    ensures var r := HeadHeaders(h, encoding, mime, cookies);
      && Get(r, ContentEncoding) ==
           (if Get(h, ContentEncoding).Some? then Get(h, ContentEncoding) else Some(encoding))
      && Get(r, ContentType) == (if Get(h, ContentType).Some? then Get(h, ContentType) else Some(mime))
      && Get(r, SetCookie) == (if cookies != "" then Some(cookies) else Get(h, SetCookie))
      && (forall k :: k != ContentEncoding && k != ContentType && k != SetCookie ==> Get(r, k) == Get(h, k))
      && Keys(h) <= Keys(r)
  {
    HeadHeadersDefaults(h, encoding, mime, cookies);
    HeadHeadersRest(h, encoding, mime, cookies);
  }

  lemma HeadHeadersDefaults(h: List<string>, encoding: string, mime: string, cookies: string)
    ensures var r := HeadHeaders(h, encoding, mime, cookies);
      && Get(r, ContentEncoding) ==
           (if Get(h, ContentEncoding).Some? then Get(h, ContentEncoding) else Some(encoding))
      && Get(r, ContentType) == (if Get(h, ContentType).Some? then Get(h, ContentType) else Some(mime))
      && Get(r, SetCookie) == (if cookies != "" then Some(cookies) else Get(h, SetCookie))
  {
    HeaderNames();
    var h1 := PutIfAbsent(h, ContentEncoding, encoding);
    var h2 := PutIfAbsent(h1, ContentType, mime);
    assert Get(h1, ContentType) == Get(h, ContentType);
    assert Get(h1, SetCookie) == Get(h, SetCookie);
    assert Get(h2, ContentEncoding) == Get(h1, ContentEncoding);
    assert Get(h2, SetCookie) == Get(h, SetCookie);
    if cookies != "" {
      var r := Put(h2, SetCookie, cookies);
      assert Get(r, ContentEncoding) == Get(h2, ContentEncoding);
      assert Get(r, ContentType) == Get(h2, ContentType);
    }
  }

  lemma HeadHeadersRest(h: List<string>, encoding: string, mime: string, cookies: string)
    ensures var r := HeadHeaders(h, encoding, mime, cookies);
      && (forall k :: k != ContentEncoding && k != ContentType && k != SetCookie ==> Get(r, k) == Get(h, k))
      && Keys(h) <= Keys(r)
  {
    var h1 := PutIfAbsent(h, ContentEncoding, encoding);
    var h2 := PutIfAbsent(h1, ContentType, mime);
    var r := HeadHeaders(h, encoding, mime, cookies);
    assert Keys(h2) <= Keys(r);
    assert Keys(h) <= Keys(h1) <= Keys(h2);
  }

  lemma HeadHeadersOk(h: List<string>, encoding: string, mime: string, cookies: string)
    requires HeadersOk(h) && encoding != "" && mime != ""
    ensures HeadersOk(HeadHeaders(h, encoding, mime, cookies))
  {
    HeaderNames();
    var h1 := PutIfAbsent(h, ContentEncoding, encoding);
    if Get(h, ContentEncoding).None? { PutHeaderOk(h, ContentEncoding, encoding); }
    var h2 := PutIfAbsent(h1, ContentType, mime);
    if Get(h1, ContentType).None? { PutHeaderOk(h1, ContentType, mime); }
    if cookies != "" { PutHeaderOk(h2, SetCookie, cookies); }
  }

  /** The reply of `header(name, value)`: `this` for chaining after a set, the stored value after a get. */
  datatype HeaderReply = Chained | Stored(value: Option<string>)

  /** What the serialiser pipes: two chunks, or (html) the output of the external XSLT processor. */
  datatype Output = Piped(chunks: seq<Chunk>) | ThroughStylesheet

  /** What `writeContent` hands to the response: the compression stage and the serialiser output. */
  datatype Delivery = Delivery(compression: Encoding, output: Output)

  /** `stream(context).pipe(reader)` for a body and a route. */
  function StreamOutput(body: Body, route: Route): Output {
    match StreamFor(route.kind)
    case Json => Piped([ValueChunk(JsonPayload(body, route.sync)), EndOfStream])
    case Xml => Piped([LinesChunk(XmlDocument(body)), EndOfStream])
    case Html => ThroughStylesheet
    case Text => Piped([TextChunk(TextPayload(body)), EndOfStream])
  }

  /** Every serialiser but html writes exactly its payload and then the end marker, and the payload
      is of the kind the Content-Type announces. */
  lemma StreamOutputShape(body: Body, route: Route)
    ensures StreamOutput(body, route).Piped? <==> MimeType(route.kind) != "text/html"
    ensures StreamOutput(body, route).Piped? ==>
      var c := StreamOutput(body, route).chunks;
      && |c| == 2 && c[1] == EndOfStream
      && (MimeType(route.kind) == "application/json" <==> c[0].ValueChunk?)
      && (MimeType(route.kind) == "application/xml" <==> c[0].LinesChunk?)
      && (MimeType(route.kind) == "text/plain" <==> c[0].TextChunk?)
  {
    TypeMatchesStream(route.kind);
  }

  class Publisher {
    var statusCode: int
    var headers: List<string>
    var body: Body

    ghost predicate Valid()
      reads this
    {
      WellFormed(body) && HeadersOk(headers)
    }

    /** The factory followed by `init()`. */
    constructor ()
      ensures Valid() && statusCode == 200 && headers == [] && body == []
    {
      statusCode := 200;
      headers := [];
      body := [];
    }

    /** `init()`: status 200, no headers, empty body. */
    method Init()
      modifies this
      ensures Valid() && statusCode == 200 && headers == [] && body == []
    {
      statusCode := 200;
      headers := [];
      body := [];
    }

    /** `push(app, handler, content)`. */
    method Push(app: string, handler: string, content: Value)
      requires Valid()
      modifies this`body
      ensures Valid()
      ensures body == ResponseBuffer.Push(old(body), app, handler, content)
    {
      var handlers := HandlersOf(body, app);
      body := Put(body, app, handlers);
      body := Put(body, app, Put(handlers, handler, content));
      PutPut(old(body), app, handlers, Put(handlers, handler, content));
      PushWellFormed(old(body), app, handler, content);
    }

    /** `statusCode(code)`: a truthy (non-zero) code replaces the status; the status is returned. */
    method StatusCode(code: int) returns (r: int)
      modifies this`statusCode
      ensures statusCode == (if code != 0 then code else old(statusCode))
      ensures r == statusCode
    {
      if code != 0 {
        statusCode := code;
      }
      r := statusCode;
    }

    /** `header(name, value)`: a truthy (non-empty) value is stored under the lower-cased name;
        a falsy one changes nothing and reads the stored value back. */
    method Header(name: string, value: string) returns (reply: HeaderReply)
      requires Valid()
      modifies this`headers
      ensures Valid()
      ensures value != "" ==> headers == Put(old(headers), Lower(name), value) && reply == Chained
      ensures value == "" ==> headers == old(headers) && reply == Stored(Get(headers, Lower(name)))
    {
      var key := Lower(name);
      if value != "" {
        PutHeaderOk(headers, key, value);
        headers := Put(headers, key, value);
        reply := Chained;
      } else {
        reply := Stored(Get(headers, key));
      }
    }

    /** `headers()`. */
    method Headers() returns (h: List<string>)
      ensures h == headers
    {
      h := headers;
    }

    /** `encoding(context)`: starts at identity, moves to deflate when "deflate" occurs, and to gzip
        when "gzip" occurs. */
    method Encoding(ctx: Context) returns (e: Encoding)
      ensures e == Negotiate(AcceptString(ctx.acceptEncoding))
    {
      var accept := AcceptString(ctx.acceptEncoding);
      e := Identity;
      if IndexOf(accept, "deflate") != -1 {
        e := Deflate;
      }
      if IndexOf(accept, "gzip") != -1 {
        e := Gzip;
      }
    }

    /** `if(!this.header("content-encoding")) this.header("content-encoding", this.encoding(context))`. */
    method DefaultEncoding(ctx: Context)
      requires Valid()
      modifies this`headers
      ensures Valid()
      ensures headers == PutIfAbsent(old(headers), ContentEncoding, EncodingName(Negotiate(AcceptString(ctx.acceptEncoding))))
    {
      HeaderNames();
      var current := Header(ContentEncoding, "");
      if current == Stored(None) {
        var e := Encoding(ctx);
        current := Header(ContentEncoding, EncodingName(e));
      }
    }

    /** `if(!this.header("content-type")) this.header("content-type", this.type(context))`. */
    method DefaultType(ctx: Context)
      requires Valid()
      modifies this`headers
      ensures Valid()
      ensures headers == PutIfAbsent(old(headers), ContentType, MimeType(ctx.route.kind))
    {
      HeaderNames();
      var current := Header(ContentType, "");
      if current == Stored(None) {
        current := Header(ContentType, MimeType(ctx.route.kind));
      }
    }

    /** The header steps of `writeHead(context)`: content-encoding and content-type only when
        missing, set-cookie only when the request carries cookies. */
    method FillHeaders(ctx: Context)
      requires Valid()
      modifies this`headers
      ensures Valid()
      ensures headers == HeadHeaders(old(headers), EncodingName(Negotiate(AcceptString(ctx.acceptEncoding))),
                                     MimeType(ctx.route.kind), ctx.cookies)
    {
      DefaultEncoding(ctx);
      DefaultType(ctx);
      if ctx.cookies != "" {
        HeaderNames();
        var current := Header(SetCookie, ctx.cookies);
      }
    }

    /** `writeHead(context)`: nothing when the head has already gone out; otherwise fills in the
        missing headers and writes the head to the transport, once. */
    method WriteHead(ctx: Context, response: Transport)
      requires Valid()
      modifies this`headers, response
      ensures Valid()
      ensures old(response.headersSent) ==>
        headers == old(headers) && response.headersSent && response.heads == old(response.heads)
      ensures !old(response.headersSent) ==>
        && headers == HeadHeaders(old(headers), EncodingName(Negotiate(AcceptString(ctx.acceptEncoding))),
                                  MimeType(ctx.route.kind), ctx.cookies)
        && response.headersSent
        && response.heads == old(response.heads) + [Head(statusCode, headers)]
    {
      if response.headersSent {
        return;
      }
      FillHeaders(ctx);
      // `this.statusCode()` with no argument only reads the status.
      response.WriteHead(statusCode, headers);
    }

    /** `toArray()` over the response body: the contents app by app, handler by handler. */
    method ToArray() returns (text: seq<Value>)
      ensures text == Flatten(body)
    {
      text := [];
      var i := 0;
      while i < |body|
        invariant 0 <= i <= |body|
        invariant text == Flatten(body[..i])
      {
        var handlers := body[i].1;
        var j := 0;
        while j < |handlers|
          invariant 0 <= j <= |handlers|
          invariant text == Flatten(body[..i]) + Contents(handlers[..j])
        {
          text := text + [handlers[j].1];
          j := j + 1;
          assert Contents(handlers[..j]) == Contents(handlers[..j - 1]) + [handlers[j - 1].1];
        }
        assert handlers[..j] == handlers;
        FlattenSnoc(body[..i], body[i]);
        assert body[..i + 1] == body[..i] + [body[i]];
        i := i + 1;
      }
      assert body[..i] == body;
    }

    /** The JSON pipe: the nested body when the route is sync, the flattened list otherwise, then `null`. */
    method StreamJSON(sync: bool) returns (chunks: seq<Chunk>)
      ensures chunks == [ValueChunk(JsonPayload(body, sync)), EndOfStream]
    {
      var payload: Value;
      if sync {
        payload := Nested(body);
      } else {
        var entries := ToArray();
        payload := Arr(entries);
      }
      chunks := [ValueChunk(payload), EndOfStream];
    }

    /** The XML pipe: the declaration line put before `transform({data: body})`, then `null`. */
    method StreamXML() returns (chunks: seq<Chunk>)
      ensures chunks == [LinesChunk(XmlDocument(body)), EndOfStream]
    {
      var xml := Transform(Obj([("data", Nested(body))]));
      xml := [XmlDeclaration] + xml;
      chunks := [LinesChunk(xml), EndOfStream];
    }

    /** The Text pipe: `toArray().join('\n')`, then `null`. */
    method StreamText() returns (chunks: seq<Chunk>)
      ensures chunks == [TextChunk(TextPayload(body)), EndOfStream]
    {
      var entries := ToArray();
      var text := JoinLines(entries);
      chunks := [TextChunk(text), EndOfStream];
    }

    /** `stream(context).pipe(reader)`: the serialiser chosen by the route's type. */
    method Stream(ctx: Context) returns (out: Output)
      ensures out == StreamOutput(body, ctx.route)
    {
      match StreamFor(ctx.route.kind) {
        case Json =>
          var chunks := StreamJSON(ctx.route.sync);
          out := Piped(chunks);
        case Xml =>
          var chunks := StreamXML();
          out := Piped(chunks);
        case Html =>
          out := ThroughStylesheet;
        case Text =>
          var chunks := StreamText();
          out := Piped(chunks);
      }
    }

    /** `writeContent(context)`: the serialiser output behind the compression stage the
        negotiated encoding selects. */
    method WriteContent(ctx: Context) returns (d: Delivery)
      ensures d == Delivery(Negotiate(AcceptString(ctx.acceptEncoding)), StreamOutput(body, ctx.route))
    {
      var e := Encoding(ctx);
      var out := Stream(ctx);
      d := Delivery(e, out);
    }

    /** `write(context)`, with the context passed on to `writeContent`: the head first, then the body. */
    method Write(ctx: Context, response: Transport) returns (d: Delivery)
      requires Valid()
      modifies this`headers, response
      ensures Valid()
      ensures old(response.headersSent) ==>
        headers == old(headers) && response.heads == old(response.heads)
      ensures !old(response.headersSent) ==>
        && headers == HeadHeaders(old(headers), EncodingName(Negotiate(AcceptString(ctx.acceptEncoding))),
                                  MimeType(ctx.route.kind), ctx.cookies)
        && response.heads == old(response.heads) + [Head(statusCode, headers)]
      ensures response.headersSent
      ensures d == Delivery(Negotiate(AcceptString(ctx.acceptEncoding)), StreamOutput(body, ctx.route))
    {
      WriteHead(ctx, response);
      d := WriteContent(ctx);
    }
  }

  /** However often the head is written, the transport receives it once. */
  method WriteHeadTwice(p: Publisher, ctx: Context, response: Transport)
    requires p.Valid()
    modifies p`headers, response
    ensures p.Valid()
    ensures |response.heads| == |old(response.heads)| + (if old(response.headersSent) then 0 else 1)
  {
    p.WriteHead(ctx, response);
    p.WriteHead(ctx, response);
  }
}
