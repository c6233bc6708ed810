/** Content negotiation: the transport encoding from Accept-Encoding, and the MIME type and the
    serialiser from the route's type. */
module Negotiation {
  import opened Wrappers
  import opened Strings

  datatype Encoding = Identity | Deflate | Gzip

  function EncodingName(e: Encoding): string {
    match e
    case Identity => "identity"
    case Deflate => "deflate"
    case Gzip => "gzip"
  }

  /** `String(request.headers["accept-encoding"])`: an absent header reads as "undefined". */
  function AcceptString(header: Option<string>): string {
    match header
    case Some(s) => s
    case None => "undefined"
  }

  /** The encoding chosen for an Accept-Encoding string, by substring tests only: gzip whenever it
      is mentioned (whatever the order, with or without deflate and whatever the q-values), deflate
      only when gzip is not mentioned, identity otherwise. */
  function Negotiate(accept: string): (e: Encoding)
    ensures e == Gzip <==> Contains(accept, "gzip")
    ensures e == Deflate <==> Contains(accept, "deflate") && !Contains(accept, "gzip")
    ensures e == Identity <==> !Contains(accept, "deflate") && !Contains(accept, "gzip")
  {
    if IndexOf(accept, "gzip") != -1 then Gzip
    else if IndexOf(accept, "deflate") != -1 then Deflate
    else Identity
  }

  lemma NegotiateExamples()
    ensures Negotiate("gzip") == Gzip
    ensures Negotiate("deflate") == Deflate
    ensures Negotiate("gzip, deflate") == Gzip
    ensures Negotiate("deflate, gzip") == Gzip
    ensures Negotiate("deflate;q=1.0, gzip;q=0.1") == Gzip
    ensures Negotiate("") == Identity
    ensures Negotiate(AcceptString(None)) == Identity
  {
    OccursInside("gzip", "gzip", 0);
    OccursInside("gzip, deflate", "gzip", 0);
    OccursInside("deflate, gzip", "gzip", 9);
    OccursInside("deflate;q=1.0, gzip;q=0.1", "gzip", 15);
    OccursInside("deflate", "deflate", 0);
    AbsentFirstChar("deflate", "gzip");
    AbsentFirstChar("", "gzip");
    AbsentFirstChar("", "deflate");
    AbsentFirstChar("undefined", "gzip");
    assert !Contains("undefined", "deflate") by {
      forall i ensures !OccursAt("undefined", "deflate", i) {
        if 0 <= i <= 2 {
          Mismatch("undefined", "deflate", i, if i == 2 then 3 else 0);
        }
      }
    }
  }

  /** The four serialisers. */
  datatype Format = Json | Xml | Html | Text

  /** `type(context)`: the Content-Type for the route's type, text/plain for anything not listed. */
  function MimeType(kind: string): string {
    if kind == "xml" then "application/xml"
    else if kind == "html" then "text/html"
    else if kind == "json" then "application/json"
    else "text/plain"
  }

  /** `stream(context)`: the serialiser chosen by its own switch on the route's type. */
  function StreamFor(kind: string): Format {
    match kind
    case "json" => Json
    case "xml" => Xml
    case "html" => Html
    case _ => Text
  }

  /** The MIME lookup and the serialiser switch are written separately and agree on every route
      type: the Content-Type announces the format that is then streamed. */
  lemma TypeMatchesStream(kind: string)
    ensures MimeType(kind) == "application/json" <==> StreamFor(kind) == Json
    ensures MimeType(kind) == "application/xml" <==> StreamFor(kind) == Xml
    ensures MimeType(kind) == "text/html" <==> StreamFor(kind) == Html
    ensures MimeType(kind) == "text/plain" <==> StreamFor(kind) == Text
  {
  }
}
