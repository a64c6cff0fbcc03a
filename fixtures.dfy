/**
 * Small trees shaped like the repository's test fixtures, and what the query
 * and the generator make of them, for every generator.
 */
module Fixtures {
  import opened Refract
  import opened Queries
  import opened QueryElement
  import opened Generator

  const StringSchema: Node :=
    Node("asset", ["messageBodySchema"], map["contentType" := "application/schema+json"], Str("{\"type\":\"string\"}"))

  const GetRequest: Node := Node("httpRequest", [], map["method" := "GET"], Kids([]))

  const PostRequest: Node := Node("httpRequest", [], map["method" := "POST"], Kids([StringSchema]))

  const EmptyResponse: Node := Node("httpResponse", [], map[], Kids([]))

  const SchemaResponse: Node := Node("httpResponse", [], map[], Kids([StringSchema]))

  function Wrap(element: string, kids: seq<Node>): Node
  {
    Node(element, [], map[], Kids(kids))
  }

  /** A document with a single transaction holding the one request `req`. */
  function OneRequestDocument(req: Node): Node
  {
    Wrap("parseResult", [Wrap("category", [Wrap("transition", [Wrap("httpTransaction", [req])])])])
  }

  /** A document with a single transaction holding one POST request with one schema. */
  function NoResponseDocument(): Node
  {
    OneRequestDocument(PostRequest)
  }

  /** A document with two transactions: a bare GET with a bare response, and a POST and a response with schemas. */
  function ParamsDocument(): Node
  {
    Wrap("parseResult", [Wrap("category", [Wrap("transition", [
      Wrap("httpTransaction", [GetRequest, EmptyResponse]),
      Wrap("httpTransaction", [PostRequest, SchemaResponse])])])])
  }

  /** When no child has array content, the query yields exactly the directly matching children. */
  lemma QueryLeafKids(n: Node, name: string)
    requires n.content.Kids? && forall i :: 0 <= i < |n.content.kids| ==> !n.content.kids[i].content.Kids?
    ensures Query(n, name) == Where(n.content.kids, name)
  {
    var ks := n.content.kids;
    var qs := seq(|ks|, i requires 0 <= i < |ks| => Query(ks[i], name));
    assert forall i :: 0 <= i < |ks| ==> qs[i] == [];
    FlattenEmpty(qs);
  }

  lemma NestedOne(k: Node, name: string)
    ensures Nested([k], name) == Query(k, name)
  {
    var qs := seq(1, i requires 0 <= i < 1 => Query([k][i], name));
    assert qs == [Query(k, name)];
    assert Nested([k], name) == Flatten(qs);
    assert Flatten(qs) == qs[0] + Flatten(qs[1..]);
    assert qs[1..] == [];
  }

  lemma NestedTwo(a: Node, b: Node, name: string)
    ensures Nested([a, b], name) == Query(a, name) + Query(b, name)
  {
    var qs := seq(2, i requires 0 <= i < 2 => Query([a, b][i], name));
    assert qs == [Query(a, name), Query(b, name)];
    assert Nested([a, b], name) == Flatten(qs);
    assert Flatten(qs) == qs[0] + Flatten(qs[1..]);
    assert qs[1..] == [Query(b, name)];
    assert Flatten(qs[1..]) == qs[1..][0] + Flatten(qs[1..][1..]);
    assert qs[1..][1..] == [];
  }

  lemma WhereOne(k: Node, name: string)
    ensures Where([k], name) == if k.element == name then [k] else []
  {
    assert [k][..0] == [];
  }

  lemma WhereTwo(a: Node, b: Node, name: string)
    ensures Where([a, b], name) == (if a.element == name then [a] else []) + (if b.element == name then [b] else [])
  {
    assert [a, b][..1] == [a];
    WhereOne(a, name);
  }

  lemma QueryOne(n: Node, kid: Node, name: string)
    requires n.content == Kids([kid])
    ensures Query(n, name) == Query(kid, name) + (if kid.element == name then [kid] else [])
  {
    NestedOne(kid, name);
    WhereOne(kid, name);
  }

  lemma QueryPostRequest()
    ensures Query(PostRequest, HttpRequestQuery) == []
  {
    QueryOne(PostRequest, StringSchema, HttpRequestQuery);
  }

  lemma QueryTransaction(req: Node, resp: Node)
    requires req.element == HttpRequestQuery && resp.element == HttpResponseQuery
    requires Query(req, HttpRequestQuery) == [] && Query(resp, HttpRequestQuery) == []
    ensures Query(Wrap("httpTransaction", [req, resp]), HttpRequestQuery) == [req]
  {
    NestedTwo(req, resp, HttpRequestQuery);
    WhereTwo(req, resp, HttpRequestQuery);
  }

  /** One request is found in the document without a response. */
  lemma QueryNoResponseDocument()
    ensures Query(NoResponseDocument(), HttpRequestQuery) == [PostRequest]
  {
    var txn := Wrap("httpTransaction", [PostRequest]);
    var transition := Wrap("transition", [txn]);
    var category := Wrap("category", [transition]);
    QueryPostTransaction();
    assert Query(transition, HttpRequestQuery) == [PostRequest] by {
      QueryOne(transition, txn, HttpRequestQuery);
    }
    assert Query(category, HttpRequestQuery) == [PostRequest] by {
      QueryOne(category, transition, HttpRequestQuery);
    }
    QueryOne(NoResponseDocument(), category, HttpRequestQuery);
  }

  lemma QuerySecondTransaction()
    ensures Query(Wrap("httpTransaction", [PostRequest, SchemaResponse]), HttpRequestQuery) == [PostRequest]
  {
    QueryPostRequest();
    QueryOne(SchemaResponse, StringSchema, HttpRequestQuery);
    QueryTransaction(PostRequest, SchemaResponse);
  }

  lemma QueryParamsTransition()
    ensures Query(Wrap("transition", [Wrap("httpTransaction", [GetRequest, EmptyResponse]),
                                      Wrap("httpTransaction", [PostRequest, SchemaResponse])]), HttpRequestQuery)
         == [GetRequest, PostRequest]
  {
    var t1 := Wrap("httpTransaction", [GetRequest, EmptyResponse]);
    var t2 := Wrap("httpTransaction", [PostRequest, SchemaResponse]);
    QueryTransaction(GetRequest, EmptyResponse);
    QuerySecondTransaction();
    NestedTwo(t1, t2, HttpRequestQuery);
    WhereTwo(t1, t2, HttpRequestQuery);
  }

  /** Two requests are found, GET before POST, in document order. */
  lemma QueryParamsDocument()
    ensures Query(ParamsDocument(), HttpRequestQuery) == [GetRequest, PostRequest]
  {
    var transition := Wrap("transition", [Wrap("httpTransaction", [GetRequest, EmptyResponse]),
                                          Wrap("httpTransaction", [PostRequest, SchemaResponse])]);
    var category := Wrap("category", [transition]);
    assert Query(category, HttpRequestQuery) == [GetRequest, PostRequest] by {
      QueryParamsTransition();
      QueryOne(category, transition, HttpRequestQuery);
    }
    QueryOne(ParamsDocument(), category, HttpRequestQuery);
  }

  lemma QueryPostTransaction()
    ensures Query(Wrap("httpTransaction", [PostRequest]), HttpRequestQuery) == [PostRequest]
  {
    QueryPostRequest();
    QueryOne(Wrap("httpTransaction", [PostRequest]), PostRequest, HttpRequestQuery);
  }

  /**
   * The order is not pre-order: a request nested under a later sibling is
   * reported before an earlier sibling request.
   */
  lemma QueryNestedBeforeDirect()
    ensures Query(Wrap("root", [GetRequest, Wrap("httpTransaction", [PostRequest])]), HttpRequestQuery)
         == [PostRequest, GetRequest]
  {
    var txn := Wrap("httpTransaction", [PostRequest]);
    QueryPostTransaction();
    NestedTwo(GetRequest, txn, HttpRequestQuery);
    WhereTwo(GetRequest, txn, HttpRequestQuery);
  }

  /** The request of the document without a response, once processed: its schema, then one body. */
  lemma ProcessedPost(gen: Faker)
    ensures WithBodies(Process(PostRequest, gen), gen)
         == PostRequest.(content := Kids([StringSchema, CreateMessageBodyAsset(StringSchema.content, gen)]))
  {
    assert Process(StringSchema, gen) == StringSchema;
    assert ProcessChild(StringSchema, gen) == StringSchema;
    assert Process(PostRequest, gen) == PostRequest;
    assert MessageBodySchemas(PostRequest) == [StringSchema] by {
      assert [StringSchema][..0] == [];
    }
  }

  lemma ProcessWrapOne(element: string, kid: Node, gen: Faker)
    ensures Process(Wrap(element, [kid]), gen) == Wrap(element, [ProcessChild(kid, gen)])
  {
    assert seq(1, i requires 0 <= i < 1 => ProcessChild([kid][i], gen)) == [ProcessChild(kid, gen)];
  }

  /** Generation on a one-request document extends that request and nothing else. */
  lemma ProcessOneRequestDocument(req: Node, gen: Faker)
    requires req.element == HttpRequestQuery
    ensures Process(OneRequestDocument(req), gen) == OneRequestDocument(WithBodies(Process(req, gen), gen))
  {
    var req' := WithBodies(Process(req, gen), gen);
    var txn := Wrap("httpTransaction", [req]);
    ProcessWrapOne("httpTransaction", req, gen);
    var transition := Wrap("transition", [txn]);
    ProcessWrapOne("transition", txn, gen);
    var category := Wrap("category", [transition]);
    ProcessWrapOne("category", transition, gen);
    ProcessWrapOne("parseResult", category, gen);
  }

  lemma OneRequestDocumentAt(req: Node)
    ensures ValidPath(OneRequestDocument(req), [0, 0, 0, 0]) && At(OneRequestDocument(req), [0, 0, 0, 0]) == req
  {
  }

  /**
   * After generation the request has exactly two children: the schema,
   * unchanged, and a `messageBody` asset with content type
   * `application/json` and the generated string as content.
   */
  lemma GenerateNoResponseDocument(gen: Faker)
    ensures ValidPath(Process(NoResponseDocument(), gen), [0, 0, 0, 0])
    ensures At(Process(NoResponseDocument(), gen), [0, 0, 0, 0]).content
         == Kids([StringSchema,
                  Node("asset", ["messageBody"], map["contentType" := "application/json"], Str(gen(StringSchema.content)))])
  {
    ProcessedPost(gen);
    ProcessOneRequestDocument(PostRequest, gen);
    OneRequestDocumentAt(WithBodies(Process(PostRequest, gen), gen));
  }

  /**
   * Generation is not idempotent: run again on its own output, it keeps the
   * schema and the first body and appends a second body generated from the
   * same schema, because nothing checks for an existing body.
   */
  lemma GenerateTwiceAppendsAgain(gen: Faker)
    ensures var once := Process(NoResponseDocument(), gen);
      var twice := Process(once, gen);
      && ValidPath(once, [0, 0, 0, 0]) && ValidPath(twice, [0, 0, 0, 0])
      && At(once, [0, 0, 0, 0]).content.Kids?
      && At(twice, [0, 0, 0, 0]).content
         == Kids(At(once, [0, 0, 0, 0]).content.kids + [CreateMessageBodyAsset(StringSchema.content, gen)])
  {
    ProcessedPost(gen);
    var post' := WithBodies(Process(PostRequest, gen), gen);
    var body := CreateMessageBodyAsset(StringSchema.content, gen);
    assert post'.content.kids == [StringSchema, body];
    ProcessOneRequestDocument(PostRequest, gen);
    OneRequestDocumentAt(post');
    assert Process(body, gen) == body;
    assert ProcessChild(body, gen) == body;
    assert ProcessChild(StringSchema, gen) == StringSchema;
    assert Process(post', gen) == post';
    assert MessageBodySchemas(post') == [StringSchema] by {
      assert [StringSchema, body][..1] == [StringSchema];
      assert [StringSchema, body][..1][..0] == [];
    }
    ProcessOneRequestDocument(post', gen);
    OneRequestDocumentAt(WithBodies(post', gen));
    assert WithBodies(post', gen).content.kids == [StringSchema, body, body];
  }

  /** Responses are not processed: a response with a schema keeps its content. */
  lemma ResponsesUntouched(gen: Faker)
    ensures Process(Wrap("httpTransaction", [GetRequest, SchemaResponse]), gen)
         == Wrap("httpTransaction", [GetRequest, SchemaResponse])
  {
    assert ProcessChild(StringSchema, gen) == StringSchema;
    assert Process(SchemaResponse, gen) == SchemaResponse;
    assert ProcessChild(SchemaResponse, gen) == SchemaResponse;
    assert Process(GetRequest, gen) == GetRequest;
    assert MessageBodySchemas(GetRequest) == [];
    assert ProcessChild(GetRequest, gen) == GetRequest;
  }
}
