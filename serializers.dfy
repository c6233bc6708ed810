/** The payloads of the JSON, XML and Text serialisers, and the XML `transform`. */
module Serializers {
  import opened Wrappers
  import opened Strings
  import opened Json
  import opened Assoc
  import opened ResponseBuffer

  /** One `reader.write(...)` of a pipe. */
  datatype Chunk =
    | ValueChunk(value: Value)      // a structured value, as the JSON pipe writes it
    | LinesChunk(lines: seq<string>) // an array of markup lines, as the XML pipe writes it
    | TextChunk(text: string)        // a string, as the Text pipe writes it
    | EndOfStream                    // `reader.write(null)`

  // ---------------------------------------------------------------- JSON

  /** The sync payload keeps the app -> handler provenance; the default one is the plain list. */
  function JsonPayload(body: Body, sync: bool): Value {
    if sync then Nested(body) else Arr(Flatten(body))
  }

  /** The sync payload stores each app's handlers under the app's own key, as the buffer does. */
  lemma NestedKeepsProvenance(body: Body, app: string)
    ensures Get(Nested(body).fields, app) ==
      match Get(body, app)
      case Some(h) => Some(Obj(h))
      case None => None
  {
    FindByKeys(Nested(body).fields, body, app);
  }

  /** Given `{a: {h1: "x"}, b: {h2: "y"}}`, sync mode yields that mapping and async mode `["x", "y"]`. */
  lemma JsonExample()
    ensures var body: Body := [("a", [("h1", Str("x"))]), ("b", [("h2", Str("y"))])];
      && JsonPayload(body, true) == Obj([("a", Obj([("h1", Str("x"))])), ("b", Obj([("h2", Str("y"))]))])
      && JsonPayload(body, false) == Arr([Str("x"), Str("y")])
  {
    var body: Body := [("a", [("h1", Str("x"))]), ("b", [("h2", Str("y"))])];
    assert body[1..][1..] == [];
    assert Contents(body[0].1) == [Str("x")];
    assert Contents(body[1..][0].1) == [Str("y")];
  }

  // ---------------------------------------------------------------- Text

  /** How `Array.prototype.join` writes one element: null and undefined as nothing, an array as its
      elements joined by commas, an object as "[object Object]". */
  function JoinText(v: Value): string {
    match v
    case Str(s) => s
    case Num(n) => IntToString(n)
    case Bool(b) => if b then "true" else "false"
    case Null => ""
    case Obj(_) => "[object Object]"
    case Arr(items) => Join(seq(|items|, i requires 0 <= i < |items| => JoinText(items[i])), ",")
  }

  /** The elements of an array as `join` writes them. */
  function Lines(entries: seq<Value>): (r: seq<string>)
    ensures |r| == |entries|
  {
    seq(|entries|, i requires 0 <= i < |entries| => JoinText(entries[i]))
  }

  /** `entries.join('\n')`. */
  function JoinLines(entries: seq<Value>): string {
    Join(Lines(entries), "\n")
  }

  /** `toArray().join('\n')`. */
  function TextPayload(body: Body): string {
    JoinLines(Flatten(body))
  }

  /** The text payload has one line per entry of `toArray()`: splitting it at the newlines gives the
      entries back, so there is no separator before the first, none after the last and exactly one
      between neighbours (when no entry holds a newline itself). */
  lemma TextRoundTrip(body: Body)
    requires |Flatten(body)| >= 1
    requires forall i :: 0 <= i < |Lines(Flatten(body))| ==> '\n' !in Lines(Flatten(body))[i]
    ensures Split(TextPayload(body), '\n') == Lines(Flatten(body))
  {
    SplitJoin(Lines(Flatten(body)), '\n');
  }

  lemma TextOfEmptyBody()
    ensures TextPayload([]) == ""
  {
  }

  /** Given `{a: {h1: "x"}, a2: {h2: "y"}}` the text is exactly "x\ny". */
  lemma TextExample()
    ensures TextPayload([("a", [("h1", Str("x"))]), ("a2", [("h2", Str("y"))])]) == "x\ny"
  {
    var body: Body := [("a", [("h1", Str("x"))]), ("a2", [("h2", Str("y"))])];
    assert body[1..][1..] == [];
    assert Contents(body[0].1) == [Str("x")];
    assert Contents(body[1..][0].1) == [Str("y")];
    assert Flatten(body) == [Str("x"), Str("y")];
    assert Lines(Flatten(body)) == ["x", "y"];
  }

  // ---------------------------------------------------------------- XML

  const XmlDeclaration: string := "<?xml version=\"1.0\"?>"

  /** A key JavaScript's `isNaN` reads as a number; here: a non-empty run of decimal digits. */
  predicate IsNumericKey(k: string) {
    |k| > 0 && forall i :: 0 <= i < |k| ==> IsDigit(k[i])
  }

  /** The element name for a key: the key itself, or "node-" and the key when it is numeric. */
  function TagName(key: string): string {
    if IsNumericKey(key) then "node-" + key else key
  }

  function Element(key: string, inner: string): string {
    "<" + TagName(key) + ">" + inner + "</" + TagName(key) + ">"
  }

  /** `transform(content)`: one element per key that `for (i in content)` visits, in key order;
      an array's keys are its indices. */
  function Transformed(v: Value): seq<string>
    decreases v, 0
  {
    match v
    case Obj(fields) =>
      seq(|fields|, i requires 0 <= i < |fields| => Element(fields[i].0, Rendered(fields[i].1)))
    case Arr(items) =>
      seq(|items|, i requires 0 <= i < |items| => Element(NatToString(i), Rendered(items[i])))
    case _ => []
  }

  /** The text inside an element: `String(v)` for a number, boolean or string; otherwise the lines
      of the nested transform, turned into a string by joining them with commas. */
  function Rendered(v: Value): string
    decreases v, 1
  {
    if IsScalar(v) then ScalarString(v) else Join(Transformed(v), ",")
  }

  /** `transform({data: body})` after the declaration line. */
  function XmlDocument(body: Body): seq<string> {
    [XmlDeclaration] + Transformed(Obj([("data", Nested(body))]))
  }

  /** A key keeps its name exactly when it is not numeric, and no element name is numeric. */
  lemma TagNameRule(key: string)
    ensures TagName(key) == key <==> !IsNumericKey(key)
    ensures !IsNumericKey(TagName(key))
  {
    if IsNumericKey(key) {
      assert |TagName(key)| > |key|;
      assert TagName(key)[0] == 'n';
    }
  }

  /** The elements of an array are named after their indices. */
  lemma ArrayElementNames(items: seq<Value>, i: nat)
    requires i < |items|
    ensures Transformed(Arr(items))[i] ==
      "<node-" + NatToString(i) + ">" + Rendered(items[i]) + "</node-" + NatToString(i) + ">"
  {
    assert IsNumericKey(NatToString(i));
  }

  /** Null and undefined leave their element empty. */
  lemma NullIsEmptyElement(key: string)
    ensures Element(key, Rendered(Null)) == "<" + TagName(key) + "></" + TagName(key) + ">"
  {
  }

  /** A number's element holds text that reads back as the same number. */
  lemma NumberElement(key: string, n: int)
    ensures ParseInt(Rendered(Num(n))) == Some(n)
    ensures Element(key, Rendered(Num(n))) == "<" + TagName(key) + ">" + IntToString(n) + "</" + TagName(key) + ">"
  {
    IntToStringRoundTrip(n);
  }

  /** The document is the declaration line and then one `data` element holding one element per app,
      joined by commas, each of which holds its handlers' elements, joined by commas. */
  lemma XmlDocumentShape(body: Body)
    ensures |XmlDocument(body)| == 2
    ensures XmlDocument(body)[0] == XmlDeclaration
    ensures XmlDocument(body)[1] == "<data>" + Join(Transformed(Nested(body)), ",") + "</data>"
    ensures |Transformed(Nested(body))| == |body|
    ensures forall i :: 0 <= i < |body| ==>
      Transformed(Nested(body))[i] == Element(body[i].0, Join(Transformed(Obj(body[i].1)), ","))
  {
    XmlDocumentOfBody(body);
    var nested := Nested(body);
    assert !IsScalar(nested);
    assert Rendered(nested) == Join(Transformed(nested), ",");
    var apps := nested.fields;
    forall i | 0 <= i < |body|
      ensures Transformed(nested)[i] == Element(body[i].0, Join(Transformed(Obj(body[i].1)), ","))
    {
      assert apps[i] == (body[i].0, Obj(body[i].1));
      assert Transformed(nested)[i] == Element(apps[i].0, Rendered(apps[i].1));
      assert !IsScalar(Obj(body[i].1));
    }
  }

  /** `{a: {h1: 1}}` becomes the declaration and `<data><a><h1>1</h1></a></data>`. */
  lemma XmlExample()
    ensures XmlDocument([("a", [("h1", Num(1))])]) ==
      [XmlDeclaration, "<data><a><h1>1</h1></a></data>"]
  {
    var body: Body := [("a", [("h1", Num(1))])];
    XmlExampleBody();
    XmlDocumentOfBody(body);
    ExampleLiterals();
  }

  /** The string concatenations the two examples rely on. */
  lemma ExampleLiterals()
    ensures "<data>" + "<a><h1>1</h1></a>" + "</data>" == "<data><a><h1>1</h1></a></data>"
    ensures "<" + "h1" + ">" + "1" + "</" + "h1" + ">" == "<h1>1</h1>"
    ensures "<" + "a" + ">" + "<h1>1</h1>" + "</" + "a" + ">" == "<a><h1>1</h1></a>"
  {
  }

  lemma XmlDocumentOfBody(body: Body)
    ensures XmlDocument(body) == [XmlDeclaration, "<data>" + Rendered(Nested(body)) + "</data>"]
  {
    assert !IsDigit("data"[0]);
    var inner := Rendered(Nested(body));
    var doc := Transformed(Obj([("data", Nested(body))]));
    assert doc == [Element("data", inner)];
    assert "<" + "data" + ">" == "<data>" && "</" + "data" + ">" == "</data>";
    assert Element("data", inner) == "<data>" + inner + "</data>";
  }

  lemma XmlExampleBody()
    ensures Rendered(Nested([("a", [("h1", Num(1))])])) == "<a><h1>1</h1></a>"
  {
    var body: Body := [("a", [("h1", Num(1))])];
    assert !IsDigit("h1"[0]) && !IsDigit("a"[0]);
    ExampleLiterals();
    SingleElement("h1", Num(1), "1");
    SingleElement("a", Obj(body[0].1), "<h1>1</h1>");
    assert Nested(body) == Obj([("a", Obj(body[0].1))]);
  }

  lemma SingleElement(key: string, child: Value, inner: string)
    requires |key| > 0 && !IsDigit(key[0]) && Rendered(child) == inner
    ensures Rendered(Obj([(key, child)])) == "<" + key + ">" + inner + "</" + key + ">"
  {
    var lines := Transformed(Obj([(key, child)]));
    assert |lines| == 1 && lines[0] == Element(key, inner);
  }

  /** The element for one key: a scalar is stringified, anything else is transformed in turn. */
  method ElementFor(key: string, child: Value) returns (line: string)
    ensures line == Element(key, Rendered(child))
    decreases child, 1
  {
    var name := if IsNumericKey(key) then "node-" + key else key;
    var value: string;
    if child.Str? || child.Num? || child.Bool? {
      value := ScalarString(child);
    } else {
      var inner := Transform(child);
      value := Join(inner, ",");
    }
    line := "<" + name + ">" + value + "</" + name + ">";
  }

  /** `transform`: builds the lines one key at a time. */
  method Transform(content: Value) returns (xml: seq<string>)
    ensures xml == Transformed(content)
    decreases content, 0
  {
    xml := [];
    ghost var target := Transformed(content);
    match content {
      case Obj(fields) =>
        assert |target| == |fields|;
        var i := 0;
        while i < |fields|
          invariant 0 <= i <= |fields|
          invariant xml == target[..i]
        {
          var line := ElementFor(fields[i].0, fields[i].1);
          assert target[i] == line;
          assert target[..i + 1] == target[..i] + [line];
          xml := xml + [line];
          i := i + 1;
        }
        assert target[..i] == target;
      case Arr(items) =>
        assert |target| == |items|;
        var i := 0;
        while i < |items|
          invariant 0 <= i <= |items|
          invariant xml == target[..i]
        {
          var line := ElementFor(NatToString(i), items[i]);
          assert target[i] == line;
          assert target[..i + 1] == target[..i] + [line];
          xml := xml + [line];
          i := i + 1;
        }
        assert target[..i] == target;
      case _ =>
    }
  }
}
