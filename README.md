# Refract message body generator, modelled in Dafny

This project models the core of `refract-message-body-generator`. The package
takes a Refract API description: a tree of elements, each with an `element`
name, `meta.classes`, `attributes` and a `content` that is a string, an array
of child elements, or missing. It appends generated example `messageBody`
assets to every `httpRequest` element below the root that carries
`messageBodySchema` children. The element it is called on is never tested,
so a root `httpRequest` gets no bodies. Two pieces are modelled:

- `queryElement` (`query_element.dfy`, module `QueryElement`). It is the
  recursive matcher that finds every element below a node whose `element`
  name equals the pattern's. At each node the result is every child's own
  recursive result, in child order, followed by the node's directly matching
  children, in child order. The node itself is never tested. String or
  missing content yields nothing.
- `generateMessageBodies` and its helpers (`generator.dfy`, module
  `Generator`). The pipeline deep-copies the tree and queries the copy for
  `httpRequest` elements. For each request, in query order, it pushes one
  new asset per `messageBodySchema` child onto the request's content. The
  asset has class `messageBody`, attribute `contentType: application/json`
  and the generated example as string content. The copy is returned.

Supporting files:

- `refract.dfy` (module `Refract`): the element datatype, one-level
  `Flatten`, and tree positions (`Path`, `At`, `Replace`). It also has
  `Descendants`, a pre-order list of all elements below a node, which serves
  as the independent reference for the query.
- `queries.dfy` (module `Queries`): the patterns `httpRequest` and
  `httpResponse`. Every pattern in the repository
  constrains only the `element` name, so a pattern is that name.
- `generator_frame.dfy` (module `GeneratorFrame`): what generation changes
  and what it leaves alone, stated position by position.
- `fixtures.dfy` (module `Fixtures`): trees shaped like the test fixtures,
  with the exact query results and generated trees proved for them.

How the in-place updates are modelled: JavaScript objects are values here.
`generateMessageBodies` mutates the request objects that the query returned,
and those are references into the copy. In the model the copy is a value.
`QueryPaths` yields the positions of the query's results in the same order,
and `QueryPathsLocate` proves that the element at each position is the
corresponding query result. The method `GenerateMessageBodies` loops over
those positions. At each one it reads the request, extends it with the
method `GenerateMessageBody` (a loop that pushes one asset per schema) and
writes it back. Its postcondition equates the result with `Process`, a
structural definition of the output. `GeneratorFrame` and `Fixtures` prove
the frame properties about `Process`.

The schema-to-example generator is `jsonSchemaFaker`, wrapped in
`JSON.parse` and `JSON.stringify`. It is randomized and foreign, so the
model takes it as a parameter: `gen: Content -> string`, from the content of
a schema asset to the serialized example. Every property holds for every
such function.

Where the code and other descriptions of the package disagree, the model
follows `src/index.js`:

- Only `httpRequest` elements are processed. The comment at
  src/index.js:48-49 and the tests at test/generator.js:130-178 also expect
  bodies on `httpResponse` elements. `Fixtures.ResponsesUntouched` shows
  that a response with a schema is left as it was.
- There is no check for an existing `messageBody`. A second run therefore
  appends a second body for the same schema, so generation is not
  idempotent (`Fixtures.GenerateTwiceAppendsAgain`). The tests at
  test/generator.js:181-221 expect existing bodies to block generation.
- There is no fallback and no annotation for a schema the generator rejects
  (test/generator.js:223-266). See "Left out".
- src/index.js:54 and src/index.js:57 refer to `_` and `HTTP_REQUEST_QUERY`
  without defining or importing them. They are read as `lodash.cloneDeep`
  and the `{element: 'httpRequest'}` pattern, the same as the `query`
  constant at src/index.js:16-18.
- `lodash.messageBodySchemas` (src/index.js:37) comes from
  `lodash-api-description`, which is not part of this model. It is assumed
  to return the request's direct children whose classes contain
  `messageBodySchema`, in child order, and nothing when the content is not
  an array. That is the shape the fixtures show (test/generator.js:28-41).

## Model

| member | source | states |
|---|---|---|
| `QueryElement.Where` | src/queryElement.js:16 | `lodash.where` on the children: an element is in the result exactly when it is a child whose `element` equals the pattern's name |
| `QueryElement.Nested` | src/queryElement.js:18-23 | the mapped and flattened recursive results: an element is among them exactly when it is in the query result of some child |
| `Refract.FlattenMember` | src/queryElement.js:23 | one-level `flatten`: an element is in the flattened list exactly when it is in one of the blocks |
| `Refract.FlattenAppend` | src/queryElement.js:23 | flattening the blocks of `a + b` gives the flattening of `a` followed by that of `b`, so block order is kept |
| `QueryElement.Query` | src/queryElement.js:7-26 | a node whose content is missing, falsy or a string (not an array) yields the empty result |
| `QueryElement.QuerySound` | src/queryElement.js:16-25 | every result has the queried `element` name and is a descendant of the node, reached through array contents |
| `QueryElement.QueryExcludesSelf` | src/queryElement.js:16-24 | the node the query is called on is never among its own results |
| `QueryElement.QueryComplete` | src/queryElement.js:16-25 | the results are, as a multiset, exactly the matching descendants of the pre-order reference `Descendants`, so their number equals the number of matching proper descendants |
| `QueryElement.QueryOrder` | src/queryElement.js:18-25 | for children `a + b`, the results are the recursive results under `a`, then under `b`, then the directly matching children of `a`, then of `b` |
| `QueryElement.QueryPaths` | src/queryElement.js:7-26 | the references the query returns, as positions: exactly one per result, and never the node the query was called on |
| `QueryElement.QueryPathsLocate` | src/queryElement.js:7-26 | the results are the tree's own elements: the j-th position from `QueryPaths` is a non-empty valid path to the j-th result |
| `Generator.CreateMessageBodyAsset` | src/index.js:26-34 | the new element is an `asset` with classes exactly `['messageBody']`, attributes exactly `{contentType: 'application/json'}` and the generator's output as string content; it is neither a schema nor a request |
| `Generator.SchemasOf` | src/index.js:37 | an element is in the schema list exactly when it is a child classified `messageBodySchema` |
| `Generator.MessageBodySchemas` | src/index.js:37 | `lodash.messageBodySchemas(request)`: an element is in the list exactly when the request has array content and the element is one of its children classified `messageBodySchema`; nothing for string or missing content |
| `Generator.Bodies` | src/index.js:39-45 | one generated body per schema: the j-th is the asset created from the j-th schema's content |
| `Generator.WithBodies` | src/index.js:36-46 | the request keeps its name, classes, attributes and schema list; existing children keep their values and indices; exactly one body per schema is appended, in schema order; a request without schemas or without array content is unchanged |
| `Generator.GenerateMessageBody` | src/index.js:36-46 | the loop that pushes one asset per schema yields exactly `WithBodies` of the request |
| `Generator.CloneDeep` | src/index.js:54 | the deep copy equals the input |
| `Generator.Process` | src/index.js:53-61 | the output keeps the root's name, classes, attributes and number of children, and a root without array content comes back unchanged |
| `Generator.ProcessChild` | src/index.js:57-58 | every processed child keeps its name, classes and attributes |
| `Generator.GenerateMessageBodies` | src/index.js:53-61 | cloning, querying for requests and extending each found request at its position, in query order, yields exactly `Process` of the input; the input is a value and is not changed |
| `Generator.AppendAt` | src/index.js:58 | `generateMessageBody` on a reference into the copy: at a valid position the element there is replaced by its extended version and nothing else changes; an invalid position changes nothing; the root keeps its labels |
| `Generator.AppendAtKeepsPath` | src/index.js:58 | extending one request keeps every position of the tree valid, so the later references still lead to their requests |
| `Generator.ApplyAll` | src/index.js:58 | `forEach(generateMessageBody)` over the request positions, in order; the root keeps its name, classes and attributes |
| `Generator.ApplyAllConcat` | src/index.js:58 | the `forEach` over `a + b` is the `forEach` over `a` followed by the `forEach` over `b` |
| `Generator.ProcessByPaths` | src/index.js:57-58 | applying the per-request updates at the query's positions in query order gives `Process`: nested requests are extended before the requests that contain them |
| `GeneratorFrame.WithBodiesAt` | src/index.js:42-44 | appending bodies leaves every existing position, and the element there, unchanged |
| `GeneratorFrame.ProcessAt` | src/index.js:57-58 | the element at any position of the output is the processed subtree of the input's element there, with bodies appended exactly when it is an `httpRequest` below the root |
| `GeneratorFrame.ProcessKeepsSchemaCount` | src/index.js:37 | processing a subtree keeps the number of `messageBodySchema` children of its root |
| `GeneratorFrame.ProcessedRequest` | src/index.js:36-46 | a processed request keeps its name, classes, attributes and schema count, and grows by exactly its schema count, the new children being the bodies generated from its schemas in order |
| `GeneratorFrame.ProcessFrameOther` | src/index.js:57-58 | at the root, and at every position that is not an `httpRequest`, name, classes, attributes and number of children are unchanged, and string or missing content is identical |
| `GeneratorFrame.ProcessFrameRequest` | src/index.js:37-45 | at every `httpRequest` below the root, the content grows by exactly its number of `messageBodySchema` children, with the generated bodies in schema order |
| `GeneratorFrame.ProcessFrame` | src/index.js:53-61 | nothing but the content arrays of `httpRequest` elements grows; every position keeps its element's name, classes and attributes, and string contents, such as the schema assets, are unchanged |
| `GeneratorFrame.ProcessKeepsChildren` | src/index.js:42-44 | the existing children of any element keep their index, name, classes and attributes |
| `GeneratorFrame.ProcessWithoutRequests` | src/index.js:57-58 | a tree without any `httpRequest` below its root comes back unchanged |
| `GeneratorFrame.RequestWithoutSchemasUnchanged` | src/index.js:37-45 | a request without `messageBodySchema` children and without requests below it is left exactly as it was |
| `Fixtures.QueryNoResponseDocument` | test/queryElement.js:18-44 | the document with one POST request yields exactly that request |
| `Fixtures.QueryParamsDocument` | test/queryElement.js:58-94 | the document with a GET and a POST request yields exactly `[GET, POST]` |
| `Fixtures.QueryNestedBeforeDirect` | src/queryElement.js:18-25 | the order is not pre-order: a request nested under a later sibling is reported before an earlier sibling that is itself a request |
| `Fixtures.ProcessedPost` | test/generator.js:24-26 | the POST request with one schema ends up with two children: the schema and one generated body |
| `Fixtures.GenerateNoResponseDocument` | test/generator.js:24-63 | in the generated document the request's content is exactly the unchanged schema asset followed by an `asset` with class `messageBody`, content type `application/json` and the generated string |
| `Fixtures.GenerateTwiceAppendsAgain` | src/index.js:36-46 | running the whole pipeline again on its own output keeps the request's schema and first body and appends a second body generated from the same schema |
| `Fixtures.ResponsesUntouched` | src/index.js:56-58 | a response with a schema and a request without schemas are both left unchanged |

## Left out

- `jsonSchemaFaker`, `JSON.parse` and `JSON.stringify` (src/index.js:27, src/index.js:29, src/index.js:40) are one opaque total function parameter. They can throw on content that is not valid JSON or on a schema the generator rejects. The code has no handler, so such a throw aborts the whole call. The model does not capture that abort.
- The generator is randomized. The model treats it as a function of the schema content, so two schemas with equal content get equal bodies.
- minim's `Asset` class and `toRefract` (src/index.js:12-14, src/index.js:29-33) are not modelled as objects. The model builds the serialized record they produce directly.
- `lodash-api-description` is not part of this model. Its `messageBodySchemas` is replaced by the direct-children class filter described above.
- `lodash.where` accepts arbitrary field patterns. The model only has patterns on the `element` name, which is the only kind the repository uses.
- Aliasing: the model treats the document as a tree of values. `lodash.cloneDeep` keeps shared references shared, so an element reachable along two paths would receive its pushes twice in JavaScript. The model has no such sharing, and no cycles.
- Arrays in `content` are modelled as holding elements only. A primitive array member is not represented.
- Response processing, skipping requests that already have a body, and the `'{}'` fallback with an annotation for invalid schemas are not in src/index.js. They are therefore not modelled as properties of the code; see the notes above.
- `GenerateMessageBodies`: it does not state "the caller's tree is unchanged" as a separate postcondition. The input is an immutable value, so this holds by construction rather than by proof.
