/** The response body: app id -> handler id -> content, both levels in insertion order. */
module ResponseBuffer {
  import opened Wrappers
  import opened Json
  import opened Assoc

  type Handlers = List<Value>
  type Body = List<Handlers>

  /** Every app appears once, and every handler once within its app. */
  ghost predicate WellFormed(body: Body) {
    Distinct(body) && forall i :: 0 <= i < |body| ==> Distinct(body[i].1)
  }

  /** `self.body[app]`, or the empty object `push` starts a new app with. */
  function HandlersOf(body: Body, app: string): Handlers {
    match Get(body, app)
    case Some(h) => h
    case None => []
  }

  /** `self.body[app][handler]`. */
  function Lookup(body: Body, app: string, handler: string): Option<Value> {
    match Get(body, app)
    case Some(h) => Get(h, handler)
    case None => None
  }

  /** The body after `push(app, handler, content)`: that one pair now holds `content`, every other
      pair holds what it held, and a new app is placed after the existing ones. */
  function Push(body: Body, app: string, handler: string, content: Value): (r: Body)
    ensures Lookup(r, app, handler) == Some(content)
    ensures forall a, h :: (a, h) != (app, handler) ==> Lookup(r, a, h) == Lookup(body, a, h)
    ensures Keys(r) == if app in Keys(body) then Keys(body) else Keys(body) + [app]
  {
    Put(body, app, Put(HandlersOf(body, app), handler, content))
  }

  lemma PushWellFormed(body: Body, app: string, handler: string, content: Value)
    requires WellFormed(body)
    ensures WellFormed(Push(body, app, handler, content))
  {
    var inner := HandlersOf(body, app);
    var r := Push(body, app, handler, content);
    PutDistinct(body, app, Put(inner, handler, content));
    if app in Keys(body) {
      var i := Find(body, app);
      PutDistinct(inner, handler, content);
      PutExisting(body, i, Put(inner, handler, content));
    } else {
      PutNew(body, app, Put(inner, handler, content));
    }
  }

  /** The contents of one app's handlers, in handler order. */
  function Contents(h: Handlers): (r: seq<Value>)
    ensures |r| == |h|
  {
    seq(|h|, i requires 0 <= i < |h| => h[i].1)
  }

  /** How many (app, handler) pairs the body holds. */
  function PairCount(body: Body): nat {
    if |body| == 0 then 0 else |body[0].1| + PairCount(body[1..])
  }

  /** `toArray()`: every content, app-major and handler-minor, keys dropped. */
  function Flatten(body: Body): (r: seq<Value>)
    ensures |r| == PairCount(body)
  {
    if |body| == 0 then [] else Contents(body[0].1) + Flatten(body[1..])
  }

  function PairsOf(app: string, h: Handlers): (r: seq<(string, string)>)
    ensures |r| == |h|
  {
    seq(|h|, j requires 0 <= j < |h| => (app, h[j].0))
  }

  /** The (app, handler) pairs in the order `toArray` visits them. */
  function Pairs(body: Body): (r: seq<(string, string)>)
    ensures |r| == PairCount(body)
  {
    if |body| == 0 then [] else PairsOf(body[0].0, body[0].1) + Pairs(body[1..])
  }

  /** `{app: {handler: content}}` as one value: the payload of a sync JSON response and the root
      of the XML document. */
  function Nested(body: Body): (v: Value)
    ensures v.Obj? && Keys(v.fields) == Keys(body)
  {
    Obj(seq(|body|, i requires 0 <= i < |body| => (body[i].0, Obj(body[i].1))))
  }

  lemma FlattenAppend(a: Body, b: Body)
    ensures Flatten(a + b) == Flatten(a) + Flatten(b)
    ensures Pairs(a + b) == Pairs(a) + Pairs(b)
  {
    ContentsAppend(a, b);
    PairsAppend(a, b);
  }

  lemma AppendAssoc<T>(x: seq<T>, y: seq<T>, z: seq<T>)
    ensures x + (y + z) == (x + y) + z
  {
  }

  lemma {:induction false} ContentsAppend(a: Body, b: Body)
    ensures Flatten(a + b) == Flatten(a) + Flatten(b)
  {
    if |a| == 0 {
      assert a + b == b;
    } else {
      var ab := a + b;
      assert ab[0] == a[0] && ab[1..] == a[1..] + b;
      ContentsAppend(a[1..], b);
      assert Flatten(ab) == Contents(a[0].1) + Flatten(a[1..] + b);
      assert Flatten(a) == Contents(a[0].1) + Flatten(a[1..]);
      AppendAssoc(Contents(a[0].1), Flatten(a[1..]), Flatten(b));
    }
  }

  lemma {:induction false} PairsAppend(a: Body, b: Body)
    ensures Pairs(a + b) == Pairs(a) + Pairs(b)
  {
    if |a| == 0 {
      assert a + b == b;
    } else {
      var ab := a + b;
      assert ab[0] == a[0] && ab[1..] == a[1..] + b;
      PairsAppend(a[1..], b);
      assert Pairs(ab) == PairsOf(a[0].0, a[0].1) + Pairs(a[1..] + b);
      assert Pairs(a) == PairsOf(a[0].0, a[0].1) + Pairs(a[1..]);
      AppendAssoc(PairsOf(a[0].0, a[0].1), Pairs(a[1..]), Pairs(b));
    }
  }

  lemma WellFormedTail(body: Body)
    requires WellFormed(body) && |body| > 0
    ensures WellFormed(body[1..])
    ensures forall a :: a in Keys(body[1..]) ==> a != body[0].0
  {
    forall a | a in Keys(body[1..]) ensures a != body[0].0 {
      var m := Find(body[1..], a);
      assert body[m + 1].0 == a;
    }
  }

  /** `toArray` has one entry per (app, handler) pair, and entry k is the content stored under pair k. */
  lemma {:induction false} FlattenPairs(body: Body)
    requires WellFormed(body)
    ensures |Flatten(body)| == |Pairs(body)|
    ensures forall k :: 0 <= k < |Pairs(body)| ==>
      Lookup(body, Pairs(body)[k].0, Pairs(body)[k].1) == Some(Flatten(body)[k])
  {
    if |body| > 0 {
      var rest := body[1..];
      var n := |body[0].1|;
      WellFormedTail(body);
      FlattenPairs(rest);
      forall k | 0 <= k < |Pairs(body)|
        ensures Lookup(body, Pairs(body)[k].0, Pairs(body)[k].1) == Some(Flatten(body)[k])
      {
        if k < n {
          GetAt(body[0].1, k);
        } else {
          var a := Pairs(rest)[k - n].0;
          assert Get(rest, a).Some?;
          assert a != body[0].0;
        }
      }
    }
  }

  /** No pair is visited twice. */
  lemma {:induction false} PairsDistinct(body: Body)
    requires WellFormed(body)
    ensures forall i, j :: 0 <= i < j < |Pairs(body)| ==> Pairs(body)[i] != Pairs(body)[j]
  {
    if |body| > 0 {
      var rest := body[1..];
      var n := |body[0].1|;
      WellFormedTail(body);
      PairsDistinct(rest);
      FlattenPairs(rest);
      forall i, j | 0 <= i < j < |Pairs(body)| ensures Pairs(body)[i] != Pairs(body)[j] {
        if i < n && j >= n {
          assert Get(rest, Pairs(rest)[j - n].0).Some?;
        }
      }
    }
  }

  /** A pair is visited exactly when content is stored under it. */
  lemma PairsComplete(body: Body, app: string, handler: string)
    requires WellFormed(body)
    ensures (app, handler) in Pairs(body) <==> Lookup(body, app, handler).Some?
  {
    if (app, handler) in Pairs(body) {
      FlattenPairs(body);
      var k :| 0 <= k < |Pairs(body)| && Pairs(body)[k] == (app, handler);
      assert Lookup(body, Pairs(body)[k].0, Pairs(body)[k].1) == Some(Flatten(body)[k]);
    }
    if Lookup(body, app, handler).Some? {
      var k := PairsFound(body, app, handler);
    }
  }

  /** Every pair holding content is visited, at position `k`. */
  lemma {:induction false} PairsFound(body: Body, app: string, handler: string) returns (k: nat)
    requires Lookup(body, app, handler).Some?
    ensures k < |Pairs(body)| && Pairs(body)[k] == (app, handler)
  {
    assert |body| > 0;
    if app == body[0].0 {
      k := PairsFoundFirst(body, handler);
    } else {
      LookupTail(body, app, handler);
      var m := PairsFound(body[1..], app, handler);
      k := |body[0].1| + m;
      assert Pairs(body) == PairsOf(body[0].0, body[0].1) + Pairs(body[1..]);
    }
  }

  lemma PairsFoundFirst(body: Body, handler: string) returns (k: nat)
    requires |body| > 0 && Get(body[0].1, handler).Some?
    ensures k < |Pairs(body)| && Pairs(body)[k] == (body[0].0, handler)
  {
    k := Find(body[0].1, handler);
    assert Pairs(body) == PairsOf(body[0].0, body[0].1) + Pairs(body[1..]);
    assert PairsOf(body[0].0, body[0].1)[k] == (body[0].0, handler);
  }

  lemma LookupTail(body: Body, app: string, handler: string)
    requires |body| > 0 && app != body[0].0
    ensures Lookup(body[1..], app, handler) == Lookup(body, app, handler)
  {
    assert Find(body, app) == if Find(body[1..], app) == -1 then -1 else Find(body[1..], app) + 1;
  }

  lemma {:induction false} PairsByKeys(a: Body, b: Body)
    requires Keys(a) == Keys(b)
    requires forall i :: 0 <= i < |a| ==> Keys(a[i].1) == Keys(b[i].1)
    ensures Pairs(a) == Pairs(b)
  {
    if |a| > 0 {
      assert a[0].0 == Keys(a)[0];
      assert Keys(a[1..]) == Keys(b[1..]);
      PairsByKeys(a[1..], b[1..]);
      assert Keys(a[0].1) == Keys(b[0].1);
    }
  }

  /** Re-pushing a pair that is already there replaces its content where it stands: the visiting
      order is unchanged and only that one entry of `toArray` differs. */
  lemma PushExistingPair(body: Body, app: string, handler: string, content: Value)
    requires WellFormed(body) && Lookup(body, app, handler).Some?
    ensures Pairs(Push(body, app, handler, content)) == Pairs(body)
    ensures |Flatten(Push(body, app, handler, content))| == |Flatten(body)|
    ensures forall k :: 0 <= k < |Flatten(body)| ==>
      Flatten(Push(body, app, handler, content))[k] ==
        if Pairs(body)[k] == (app, handler) then content else Flatten(body)[k]
  {
    var r := Push(body, app, handler, content);
    PushKeepsPairs(body, app, handler, content);
    PushWellFormed(body, app, handler, content);
    FlattenPairs(body);
    FlattenPairs(r);
    forall k | 0 <= k < |Flatten(body)|
      ensures Flatten(r)[k] == if Pairs(body)[k] == (app, handler) then content else Flatten(body)[k]
    {
      var p := Pairs(body)[k];
      assert Lookup(r, p.0, p.1) == Some(Flatten(r)[k]);
      assert Lookup(body, p.0, p.1) == Some(Flatten(body)[k]);
    }
  }

  /** Re-pushing an existing pair leaves every key where it was. */
  lemma PushKeepsPairs(body: Body, app: string, handler: string, content: Value)
    requires WellFormed(body) && Lookup(body, app, handler).Some?
    ensures Pairs(Push(body, app, handler, content)) == Pairs(body)
  {
    var r := Push(body, app, handler, content);
    var i := Find(body, app);
    var inner := body[i].1;
    PutExisting(body, i, Put(inner, handler, content));
    assert r == body[i := (app, Put(inner, handler, content))];
    assert Keys(r) == Keys(body);
    forall j | 0 <= j < |r| ensures Keys(r[j].1) == Keys(body[j].1) {
      if j == i {
        assert Keys(Put(inner, handler, content)) == Keys(inner);
      }
    }
    PairsByKeys(r, body);
  }

  lemma FlattenSnoc(body: Body, entry: (string, Handlers))
    ensures Flatten(body + [entry]) == Flatten(body) + Contents(entry.1)
    ensures Pairs(body + [entry]) == Pairs(body) + PairsOf(entry.0, entry.1)
  {
    ContentsAppend(body, [entry]);
    PairsAppend(body, [entry]);
    assert [entry][1..] == [];
  }

  /** The body `push` builds for an app it has not seen. */
  lemma PushNewAppShape(body: Body, app: string, handler: string, content: Value)
    requires app !in Keys(body)
    ensures Push(body, app, handler, content) == body + [(app, [(handler, content)])]
  {
    var none: Handlers := [];
    var one: Handlers := [(handler, content)];
    assert HandlersOf(body, app) == none;
    PutNew(none, handler, content);
    assert Put(none, handler, content) == one;
    PutNew(body, app, one);
  }

  /** Pushing to a new app appends one pair, and one entry, after everything already there. */
  lemma PushNewApp(body: Body, app: string, handler: string, content: Value)
    requires app !in Keys(body)
    ensures Pairs(Push(body, app, handler, content)) == Pairs(body) + [(app, handler)]
    ensures Flatten(Push(body, app, handler, content)) == Flatten(body) + [content]
  {
    PushNewAppShape(body, app, handler, content);
    var entry := (app, [(handler, content)]);
    FlattenSnoc(body, entry);
    assert Contents(entry.1) == [content];
    assert PairsOf(entry.0, entry.1) == [(app, handler)];
  }

  lemma HandlersSnoc(app: string, h: Handlers, e: (string, Value))
    ensures PairsOf(app, h + [e]) == PairsOf(app, h) + [(app, e.0)]
    ensures Contents(h + [e]) == Contents(h) + [e.1]
  {
    var l, r := PairsOf(app, h + [e]), PairsOf(app, h) + [(app, e.0)];
    assert forall j :: 0 <= j < |l| ==> l[j] == r[j];
    var l', r' := Contents(h + [e]), Contents(h) + [e.1];
    assert forall j :: 0 <= j < |l'| ==> l'[j] == r'[j];
  }

  /** Assigning slot `i` is splicing in one element there. */
  lemma UpdateIsSplice(body: Body, i: int, x: (string, Handlers))
    requires 0 <= i < |body|
    ensures body[i := x] == body[..i] + [x] + body[i + 1..]
  {
  }

  /** The body `push` builds for a new handler of an app it has seen. */
  lemma PushNewHandlerShape(body: Body, app: string, handler: string, content: Value)
    requires WellFormed(body) && app in Keys(body) && Lookup(body, app, handler).None?
    ensures var i := Find(body, app);
      Push(body, app, handler, content) ==
        body[..i] + [(app, body[i].1 + [(handler, content)])] + body[i + 1..]
  {
    var i := Find(body, app);
    var inner: Handlers := body[i].1;
    var inner': Handlers := inner + [(handler, content)];
    assert HandlersOf(body, app) == inner;
    PutNew(inner, handler, content);
    PutExisting(body, i, inner');
    assert Push(body, app, handler, content) == body[i := (app, inner')];
    UpdateIsSplice(body, i, (app, inner'));
  }

  /** Appending one handler to app `i` adds one pair right after that app's share. */
  lemma SpliceSnocPairs(body: Body, i: int, e: (string, Value))
    requires 0 <= i < |body|
    ensures Pairs(body[..i] + [(body[i].0, body[i].1 + [e])] + body[i + 1..]) ==
      Pairs(body[..i + 1]) + [(body[i].0, e.0)] + Pairs(body[i + 1..])
  {
    var app, inner := body[i].0, body[i].1;
    var entry := (app, inner + [e]);
    PairsAppend(body[..i] + [entry], body[i + 1..]);
    PairsAppend(body[..i], [entry]);
    assert [entry][1..] == [];
    assert body[..i + 1] == body[..i] + [body[i]];
    PairsAppend(body[..i], [body[i]]);
    assert [body[i]][1..] == [];
    HandlersSnoc(app, inner, e);
  }

  /** Appending one handler to app `i` adds one entry right after that app's share. */
  lemma SpliceSnocContents(body: Body, i: int, e: (string, Value))
    requires 0 <= i < |body|
    ensures Flatten(body[..i] + [(body[i].0, body[i].1 + [e])] + body[i + 1..]) ==
      Flatten(body[..i + 1]) + [e.1] + Flatten(body[i + 1..])
  {
    var app, inner := body[i].0, body[i].1;
    var entry := (app, inner + [e]);
    ContentsAppend(body[..i] + [entry], body[i + 1..]);
    ContentsAppend(body[..i], [entry]);
    assert [entry][1..] == [];
    assert body[..i + 1] == body[..i] + [body[i]];
    ContentsAppend(body[..i], [body[i]]);
    assert [body[i]][1..] == [];
    HandlersSnoc(app, inner, e);
  }

  /** Pushing a new handler to an existing app places it after that app's last handler and before
      the next app's first. */
  lemma PushNewHandler(body: Body, app: string, handler: string, content: Value)
    requires WellFormed(body) && app in Keys(body) && Lookup(body, app, handler).None?
    ensures Pairs(Push(body, app, handler, content)) ==
      Pairs(body[..Find(body, app) + 1]) + [(app, handler)] + Pairs(body[Find(body, app) + 1..])
    ensures Flatten(Push(body, app, handler, content)) ==
      Flatten(body[..Find(body, app) + 1]) + [content] + Flatten(body[Find(body, app) + 1..])
  {
    PushNewHandlerShape(body, app, handler, content);
    SpliceSnocPairs(body, Find(body, app), (handler, content));
    SpliceSnocContents(body, Find(body, app), (handler, content));
  }
}
