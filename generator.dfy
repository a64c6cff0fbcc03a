/**
 * `generateMessageBodies`: deep-copies a Refract tree, queries the copy for
 * `httpRequest` elements and, for every `messageBodySchema` child of each of
 * them, appends a new `messageBody` asset whose content is generated from the
 * schema.  The caller's tree is never touched; only the copy is returned.
 *
 * The JavaScript mutates the request objects it found, which are references
 * into the copy.  Here the copy is a value: the query yields the requests'
 * positions (`QueryPaths`), and each request is replaced at its position by
 * its extended version.
 */
module Generator {
  import opened Refract
  import opened Queries
  import opened QueryElement

  /**
   * `JSON.stringify(jsonSchemaFaker(JSON.parse(content)))`: from the content
   * of a schema asset to the serialized example body.  The generator is
   * randomized and foreign, so it is a parameter, opaque to the model.
   */
  type Faker = Content -> string

  const MessageBodySchemaClass: string := "messageBodySchema"

  const MessageBodyClass: string := "messageBody"

  const JsonContentType: string := "application/json"

  const AssetElement: string := "asset"

  predicate IsBodySchema(n: Node)
  {
    MessageBodySchemaClass in n.classes
  }

  /** `createMessageBodyAssetFromJsonSchema`: a fresh `messageBody` asset. */
  function CreateMessageBodyAsset(schema: Content, gen: Faker): (r: Node)
    ensures r.element == AssetElement && r.classes == [MessageBodyClass]
    ensures r.attributes == map["contentType" := JsonContentType]
    ensures r.content == Str(gen(schema))
    ensures !IsBodySchema(r) && r.element != HttpRequestQuery
  {
    var asset := Node(AssetElement, [], map[], Str(gen(schema)));
    var asset := asset.(classes := asset.classes + [MessageBodyClass]);
    asset.(attributes := asset.attributes["contentType" := JsonContentType])
  }

  /** The children classified `messageBodySchema`, in child order. */
  function SchemasOf(ks: seq<Node>): (r: seq<Node>)
    ensures forall x :: x in r <==> x in ks && IsBodySchema(x)
    ensures |r| <= |ks|
  {
    if ks == [] then []
    else
      var last := ks[|ks| - 1];
      SchemasOf(ks[..|ks| - 1]) + (if IsBodySchema(last) then [last] else [])
  }

  /**
   * `lodash.messageBodySchemas(request)`, assumed to be the request's direct
   * children whose classes contain `messageBodySchema`.
   */
  function MessageBodySchemas(n: Node): (r: seq<Node>)
    ensures forall x :: x in r <==> n.content.Kids? && x in n.content.kids && IsBodySchema(x)
    ensures !n.content.Kids? ==> r == []
  {
    match n.content
    case Kids(ks) => SchemasOf(ks)
    case _ => []
  }

  /** One generated body per schema, in schema order. */
  function Bodies(schemas: seq<Node>, gen: Faker): (r: seq<Node>)
    ensures |r| == |schemas|
    ensures forall j :: 0 <= j < |r| ==> r[j] == CreateMessageBodyAsset(schemas[j].content, gen)
  {
    seq(|schemas|, j requires 0 <= j < |schemas| => CreateMessageBodyAsset(schemas[j].content, gen))
  }

  lemma {:induction false} SchemasOfAppend(a: seq<Node>, b: seq<Node>)
    ensures SchemasOf(a + b) == SchemasOf(a) + SchemasOf(b)
  {
    if b == [] {
      assert a + b == a;
    } else {
      var m := |b| - 1;
      assert (a + b)[..|a + b| - 1] == a + b[..m];
      SchemasOfAppend(a, b[..m]);
    }
  }

  lemma {:induction false} SchemasOfNone(ks: seq<Node>)
    requires forall x :: x in ks ==> !IsBodySchema(x)
    ensures SchemasOf(ks) == []
  {
    if ks != [] {
      SchemasOfNone(ks[..|ks| - 1]);
    }
  }

  lemma SchemasOfBodies(schemas: seq<Node>, gen: Faker)
    ensures SchemasOf(Bodies(schemas, gen)) == []
  {
    SchemasOfNone(Bodies(schemas, gen));
  }

  /**
   * What `generateMessageBody` makes of one request: its children unchanged
   * and in place, followed by one generated body per schema, in schema order.
   */
  function WithBodies(req: Node, gen: Faker): (r: Node)
    ensures r.element == req.element && r.classes == req.classes && r.attributes == req.attributes
    ensures !req.content.Kids? || MessageBodySchemas(req) == [] ==> r == req
    ensures req.content.Kids? ==>
      && r.content.Kids?
      && |r.content.kids| == |req.content.kids| + |MessageBodySchemas(req)|
      && r.content.kids[..|req.content.kids|] == req.content.kids
      && forall j :: 0 <= j < |MessageBodySchemas(req)| ==>
           r.content.kids[|req.content.kids| + j] == CreateMessageBodyAsset(MessageBodySchemas(req)[j].content, gen)
    ensures MessageBodySchemas(r) == MessageBodySchemas(req)
  {
    match req.content
    case Kids(ks) =>
      var bs := Bodies(SchemasOf(ks), gen);
      SchemasOfAppend(ks, bs);
      SchemasOfBodies(SchemasOf(ks), gen);
      assert ks + [] == ks;
      req.(content := Kids(ks + bs))
    case _ => req
  }

  /**
   * `generateMessageBody`: for each schema, in order, push a generated body
   * onto the request's content.
   */
  method GenerateMessageBody(req: Node, gen: Faker) returns (r: Node)
    ensures r == WithBodies(req, gen)
  {
    var bodySchemas := MessageBodySchemas(req);
    r := req;
    var i := 0;
    while i < |bodySchemas|
      invariant 0 <= i <= |bodySchemas|
      invariant req.content.Kids? ==> r == req.(content := Kids(req.content.kids + Bodies(bodySchemas[..i], gen)))
      invariant !req.content.Kids? ==> r == req
    {
      var asset := CreateMessageBodyAsset(bodySchemas[i].content, gen);
      assert Bodies(bodySchemas[..i + 1], gen) == Bodies(bodySchemas[..i], gen) + [asset];
      if req.content.Kids? {
        assert req.content.kids + Bodies(bodySchemas[..i], gen) + [asset]
            == req.content.kids + Bodies(bodySchemas[..i + 1], gen);
      }
      r := r.(content := Kids(r.content.kids + [asset]));
      i := i + 1;
    }
    assert bodySchemas[..i] == bodySchemas;
    if req.content.Kids? {
      assert req.content.kids + [] == req.content.kids;
    }
  }

  /** `lodash.cloneDeep`: a structural copy. */
  function CloneDeep(n: Node): (r: Node)
    ensures r == n
  {
    var content := match n.content
      case Kids(ks) =>
        var copies := seq(|ks|, i requires 0 <= i < |ks| => CloneDeep(ks[i]));
        assert copies == ks;
        Kids(copies)
      case Str(s) => Str(s)
      case Empty => Empty;
    Node(n.element, n.classes, n.attributes, content)
  }

  /**
   * The tree `generateMessageBodies` returns, defined by structure: every
   * element below the root has its subtree processed, and each child named
   * `httpRequest` then gets its bodies.
   */
  function Process(n: Node, gen: Faker): (r: Node)
    ensures r.element == n.element && r.classes == n.classes && r.attributes == n.attributes
    ensures n.content.Kids? <==> r.content.Kids?
    ensures n.content.Kids? ==> |r.content.kids| == |n.content.kids|
    ensures !n.content.Kids? ==> r == n
    decreases n, 0
  {
    match n.content
    case Kids(ks) => n.(content := Kids(seq(|ks|, i requires 0 <= i < |ks| => ProcessChild(ks[i], gen))))
    case _ => n
  }

  function ProcessChild(k: Node, gen: Faker): (r: Node)
    ensures r.element == k.element && r.classes == k.classes && r.attributes == k.attributes
    decreases k, 1
  {
    var c := Process(k, gen);
    if k.element == HttpRequestQuery then WithBodies(c, gen) else c
  }

  /**
   * `generateMessageBody` applied to the element that `p` leads to, in place:
   * that element is replaced by its extended version, and nothing else
   * changes.  A position that leads nowhere changes nothing.
   */
  function AppendAt(t: Node, p: Path, gen: Faker): (r: Node)
    ensures ValidPath(t, p) ==> r == Replace(t, p, WithBodies(At(t, p), gen))
    ensures !ValidPath(t, p) ==> r == t
    ensures r.element == t.element && r.classes == t.classes && r.attributes == t.attributes
    decreases p
  {
    if p == [] then WithBodies(t, gen)
    else
      match t.content
      case Kids(ks) =>
        if p[0] < |ks| then
          var c := AppendAt(ks[p[0]], p[1..], gen);
          assert c == ks[p[0]] ==> ks[p[0] := c] == ks;
          t.(content := Kids(ks[p[0] := c]))
        else t
      case _ => t
  }

  /** The `forEach(generateMessageBody)` over the request positions, in order; the root keeps its labels. */
  function ApplyAll(t: Node, ps: seq<Path>, gen: Faker): (r: Node)
    ensures r.element == t.element && r.classes == t.classes && r.attributes == t.attributes
    decreases |ps|
  {
    if ps == [] then t else ApplyAll(AppendAt(t, ps[0], gen), ps[1..], gen)
  }

  /** `generateMessageBodies` */
  method GenerateMessageBodies(root: Node, gen: Faker) returns (out: Node)
    ensures out == Process(root, gen)
  {
    out := CloneDeep(root);
    var requests := QueryPaths(out, HttpRequestQuery);
    QueryPathsLocate(out, HttpRequestQuery);
    ProcessByPaths(out, gen);
    var i := 0;
    while i < |requests|
      invariant 0 <= i <= |requests|
      invariant forall k :: i <= k < |requests| ==> ValidPath(out, requests[k])
      invariant ApplyAll(out, requests[i..], gen) == Process(root, gen)
    {
      var p := requests[i];
      var request := At(out, p);
      var extended := GenerateMessageBody(request, gen);
      forall k | i < k < |requests|
        ensures ValidPath(AppendAt(out, p, gen), requests[k])
      {
        AppendAtKeepsPath(out, p, requests[k], gen);
      }
      assert requests[i..][1..] == requests[i + 1..];
      out := Replace(out, p, extended);
      i := i + 1;
    }
  }

  lemma {:induction false} AppendAtKeepsPath(t: Node, p: Path, q: Path, gen: Faker)
    requires ValidPath(t, q)
    ensures ValidPath(AppendAt(t, p, gen), q)
    decreases q
  {
    if q != [] {
      var ks := t.content.kids;
      var u := AppendAt(t, p, gen);
      if p == [] {
        assert u.content.kids[..|ks|] == ks;
        assert u.content.kids[q[0]] == ks[q[0]];
      } else if p[0] == q[0] {
        AppendAtKeepsPath(ks[q[0]], p[1..], q[1..], gen);
      } else {
        assert u.content.kids[q[0]] == ks[q[0]];
      }
    }
  }

  lemma {:induction false} ApplyAllConcat(t: Node, a: seq<Path>, b: seq<Path>, gen: Faker)
    ensures ApplyAll(t, a + b, gen) == ApplyAll(ApplyAll(t, a, gen), b, gen)
    decreases |a|
  {
    if a != [] {
      assert (a + b)[1..] == a[1..] + b;
      ApplyAllConcat(AppendAt(t, a[0], gen), a[1..], b, gen);
    } else {
      assert a + b == b;
    }
  }

  /** Paths below child `i` act on that child alone. */
  lemma {:induction false} ApplyAllPrefix(t: Node, i: nat, ps: seq<Path>, gen: Faker)
    requires t.content.Kids? && i < |t.content.kids|
    ensures ApplyAll(t, Prefix(i, ps), gen)
         == t.(content := Kids(t.content.kids[i := ApplyAll(t.content.kids[i], ps, gen)]))
    decreases |ps|
  {
    var ks := t.content.kids;
    if ps != [] {
      var t' := AppendAt(t, [i] + ps[0], gen);
      assert ([i] + ps[0])[1..] == ps[0];
      assert t' == t.(content := Kids(ks[i := AppendAt(ks[i], ps[0], gen)]));
      assert Prefix(i, ps)[1..] == Prefix(i, ps[1..]);
      ApplyAllPrefix(t', i, ps[1..], gen);
      assert ks[i := AppendAt(ks[i], ps[0], gen)][i := ApplyAll(AppendAt(ks[i], ps[0], gen), ps[1..], gen)]
          == ks[i := ApplyAll(ks[i], ps, gen)];
    }
  }

  /** The request positions found below each child, as positions below their parent. */
  function RequestBlocks(ks: seq<Node>): (r: seq<seq<Path>>)
    ensures |r| == |ks|
  {
    seq(|ks|, i requires 0 <= i < |ks| => Prefix(i, QueryPaths(ks[i], HttpRequestQuery)))
  }

  lemma FlattenDrop<T>(ss: seq<seq<T>>, m: nat)
    requires m < |ss|
    ensures Flatten(ss[m..]) == ss[m] + Flatten(ss[m + 1..])
  {
    assert ss[m..][1..] == ss[m + 1..];
  }

  lemma SlicesStep(kids: seq<Node>, ks: seq<Node>, done: seq<Node>, m: nat)
    requires |kids| == |ks| == |done| && m < |ks|
    requires kids[..m] == done[..m] && kids[m..] == ks[m..]
    ensures kids[m] == ks[m]
    ensures kids[m := done[m]][..m + 1] == done[..m + 1]
    ensures kids[m := done[m]][m + 1..] == ks[m + 1..]
  {
    assert kids[m] == kids[m..][0];
    assert kids[m := done[m]][m + 1..] == kids[m..][1..];
    assert forall j :: 0 <= j < m ==> kids[j] == kids[..m][j] && done[j] == done[..m][j];
  }

  /** One block: the positions below child `m` turn that child into its processed form. */
  lemma BlockStep(t: Node, ks: seq<Node>, done: seq<Node>, m: nat, gen: Faker)
    requires t.content.Kids? && |t.content.kids| == |ks| == |done| && m < |ks|
    requires ApplyAll(ks[m], QueryPaths(ks[m], HttpRequestQuery), gen) == done[m]
    requires t.content.kids[..m] == done[..m] && t.content.kids[m..] == ks[m..]
    ensures ApplyAll(t, Flatten(RequestBlocks(ks)[m..]), gen)
         == ApplyAll(t.(content := Kids(t.content.kids[m := done[m]])), Flatten(RequestBlocks(ks)[m + 1..]), gen)
  {
    var blocks := RequestBlocks(ks);
    FlattenDrop(blocks, m);
    ApplyAllConcat(t, blocks[m], Flatten(blocks[m + 1..]), gen);
    SlicesStep(t.content.kids, ks, done, m);
    ApplyAllPrefix(t, m, QueryPaths(ks[m], HttpRequestQuery), gen);
  }

  /** The recursive blocks, from block `m` on, turn the children from `m` on into their processed forms. */
  lemma {:induction false} ApplyAllBlocks(t: Node, ks: seq<Node>, done: seq<Node>, m: nat, gen: Faker)
    requires t.content.Kids? && |t.content.kids| == |ks| == |done| && m <= |ks|
    requires forall i :: 0 <= i < |ks| ==> ApplyAll(ks[i], QueryPaths(ks[i], HttpRequestQuery), gen) == done[i]
    requires t.content.kids[..m] == done[..m] && t.content.kids[m..] == ks[m..]
    ensures ApplyAll(t, Flatten(RequestBlocks(ks)[m..]), gen) == t.(content := Kids(done))
    decreases |ks| - m
  {
    if m == |ks| {
      assert RequestBlocks(ks)[m..] == [];
      assert t.content.kids == t.content.kids[..m];
      assert done == done[..m];
    } else {
      BlockStep(t, ks, done, m, gen);
      SlicesStep(t.content.kids, ks, done, m);
      ApplyAllBlocks(t.(content := Kids(t.content.kids[m := done[m]])), ks, done, m + 1, gen);
    }
  }

  lemma ApplyAllSingle(t: Node, i: nat, gen: Faker)
    requires t.content.Kids? && i < |t.content.kids|
    ensures ApplyAll(t, [[i]], gen) == t.(content := Kids(t.content.kids[i := WithBodies(t.content.kids[i], gen)]))
  {
    var ks := t.content.kids;
    var u := AppendAt(t, [i], gen);
    assert [i][0] == i && [i][1..] == [];
    assert AppendAt(ks[i], [], gen) == WithBodies(ks[i], gen);
    assert u == t.(content := Kids(ks[i := WithBodies(ks[i], gen)]));
    assert [[i]][0] == [i] && [[i]][1..] == [];
    assert ApplyAll(t, [[i]], gen) == ApplyAll(u, [], gen);
  }

  /** The children `done`, with those of `ks[..m]` that are requests given their bodies. */
  function Extended(ks: seq<Node>, done: seq<Node>, m: nat, gen: Faker): (r: seq<Node>)
    requires |ks| == |done|
    ensures |r| == |done|
  {
    seq(|done|, i requires 0 <= i < |done| =>
      if i < m && ks[i].element == HttpRequestQuery then WithBodies(done[i], gen) else done[i])
  }

  lemma ExtendedStep(ks: seq<Node>, done: seq<Node>, k: nat, gen: Faker)
    requires k < |ks| == |done|
    ensures Extended(ks, done, k + 1, gen)
         == if ks[k].element == HttpRequestQuery
            then Extended(ks, done, k, gen)[k := WithBodies(Extended(ks, done, k, gen)[k], gen)]
            else Extended(ks, done, k, gen)
  {
  }

  lemma WherePathsStep(ks: seq<Node>, k: nat)
    requires k < |ks|
    ensures WherePaths(ks[..k + 1], HttpRequestQuery)
         == WherePaths(ks[..k], HttpRequestQuery) + (if ks[k].element == HttpRequestQuery then [[k]] else [])
  {
    assert ks[..k + 1][..k] == ks[..k];
  }

  /** The direct matches, one-step paths, give each matching child its bodies. */
  lemma {:induction false} ApplyAllDirect(t: Node, ks: seq<Node>, done: seq<Node>, m: nat, gen: Faker)
    requires m <= |ks| == |done|
    requires t.content == Kids(done)
    ensures ApplyAll(t, WherePaths(ks[..m], HttpRequestQuery), gen) == t.(content := Kids(Extended(ks, done, m, gen)))
    decreases m
  {
    if m == 0 {
      assert WherePaths(ks[..0], HttpRequestQuery) == [];
      assert Extended(ks, done, 0, gen) == done;
    } else {
      var k := m - 1;
      ApplyAllDirect(t, ks, done, k, gen);
      var before := Extended(ks, done, k, gen);
      var tail := if ks[k].element == HttpRequestQuery then [[k]] else [];
      WherePathsStep(ks, k);
      ApplyAllConcat(t, WherePaths(ks[..k], HttpRequestQuery), tail, gen);
      ExtendedStep(ks, done, k, gen);
      if ks[k].element == HttpRequestQuery {
        ApplyAllSingle(t.(content := Kids(before)), k, gen);
      }
    }
  }

  lemma ExtendedIsProcess(t: Node, done: seq<Node>, gen: Faker)
    requires t.content.Kids? && |done| == |t.content.kids|
    requires forall i :: 0 <= i < |done| ==> done[i] == Process(t.content.kids[i], gen)
    ensures Extended(t.content.kids, done, |done|, gen) == Process(t, gen).content.kids
  {
  }

  lemma ProcessByPathsKids(t: Node, done: seq<Node>, gen: Faker)
    requires t.content.Kids? && |done| == |t.content.kids|
    requires forall i :: 0 <= i < |done| ==> done[i] == Process(t.content.kids[i], gen)
    requires forall i :: 0 <= i < |done| ==>
      ApplyAll(t.content.kids[i], QueryPaths(t.content.kids[i], HttpRequestQuery), gen) == done[i]
    ensures ApplyAll(t, QueryPaths(t, HttpRequestQuery), gen) == Process(t, gen)
  {
    var ks := t.content.kids;
    var blocks := RequestBlocks(ks);
    assert QueryPaths(t, HttpRequestQuery) == Flatten(blocks) + WherePaths(ks, HttpRequestQuery);
    assert blocks[0..] == blocks;
    ApplyAllBlocks(t, ks, done, 0, gen);
    ApplyAllConcat(t, Flatten(blocks), WherePaths(ks, HttpRequestQuery), gen);
    assert ks[..|ks|] == ks;
    ApplyAllDirect(t.(content := Kids(done)), ks, done, |ks|, gen);
    ExtendedIsProcess(t, done, gen);
  }

  /** Running the updates at the query's positions, in query order, yields `Process`. */
  lemma {:induction false} ProcessByPaths(t: Node, gen: Faker)
    ensures ApplyAll(t, QueryPaths(t, HttpRequestQuery), gen) == Process(t, gen)
  {
    if t.content.Kids? {
      var ks := t.content.kids;
      var done := seq(|ks|, i requires 0 <= i < |ks| => Process(ks[i], gen));
      forall i | 0 <= i < |ks|
        ensures ApplyAll(ks[i], QueryPaths(ks[i], HttpRequestQuery), gen) == done[i]
      {
        ProcessByPaths(ks[i], gen);
      }
      ProcessByPathsKids(t, done, gen);
    } else {
      assert ApplyAll(t, [], gen) == t;
    }
  }
}
