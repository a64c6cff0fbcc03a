/**
 * What `generateMessageBodies` changes and what it leaves alone, stated
 * position by position over the caller's tree.
 */
module GeneratorFrame {
  import opened Refract
  import opened Queries
  import opened QueryElement
  import opened Generator

  /** Appending bodies leaves every existing position, and the element there, as it was. */
  lemma WithBodiesAt(c: Node, q: Path, gen: Faker)
    requires q != [] && ValidPath(c, q)
    ensures ValidPath(WithBodies(c, gen), q) && At(WithBodies(c, gen), q) == At(c, q)
  {
    var w := WithBodies(c, gen);
    var ks := c.content.kids;
    assert w.content.kids[q[0]] == w.content.kids[..|ks|][q[0]] == ks[q[0]];
  }

  /**
   * The element at any position of the result is the processed subtree of
   * the element at that position of the input, and, when it is an
   * `httpRequest` below the root, that subtree with its bodies appended.
   */
  lemma {:induction false} ProcessAt(n: Node, p: Path, gen: Faker)
    requires ValidPath(n, p)
    ensures ValidPath(Process(n, gen), p)
    ensures At(Process(n, gen), p)
         == if p != [] && At(n, p).element == HttpRequestQuery
            then WithBodies(Process(At(n, p), gen), gen)
            else Process(At(n, p), gen)
    decreases p
  {
    if p != [] {
      var ks := n.content.kids;
      var i, q := p[0], p[1..];
      var k := ks[i];
      assert Process(n, gen).content.kids[i] == ProcessChild(k, gen);
      if q != [] {
        ProcessAt(k, q, gen);
        if k.element == HttpRequestQuery {
          WithBodiesAt(Process(k, gen), q, gen);
        }
      }
    }
  }

  lemma {:induction false} SchemasOfSameClasses(xs: seq<Node>, ys: seq<Node>)
    requires |xs| == |ys|
    requires forall i :: 0 <= i < |xs| ==> xs[i].classes == ys[i].classes
    ensures |SchemasOf(xs)| == |SchemasOf(ys)|
  {
    if xs != [] {
      var m := |xs| - 1;
      SchemasOfSameClasses(xs[..m], ys[..m]);
    }
  }

  /** Processing a subtree keeps the number of `messageBodySchema` children of its root. */
  lemma ProcessKeepsSchemaCount(a: Node, gen: Faker)
    ensures |MessageBodySchemas(Process(a, gen))| == |MessageBodySchemas(a)|
  {
    if a.content.Kids? {
      assert forall i :: 0 <= i < |a.content.kids| ==> Process(a, gen).content.kids[i] == ProcessChild(a.content.kids[i], gen);
      SchemasOfSameClasses(a.content.kids, Process(a, gen).content.kids);
    }
  }

  /** At a position that is the root or not an `httpRequest`, only the subtree is processed. */
  lemma ProcessFrameOther(n: Node, p: Path, gen: Faker)
    requires ValidPath(n, p) && (p == [] || At(n, p).element != HttpRequestQuery)
    ensures ValidPath(Process(n, gen), p)
    ensures
      var a, b := At(n, p), At(Process(n, gen), p);
      && b.element == a.element && b.classes == a.classes && b.attributes == a.attributes
      && (!a.content.Kids? ==> b == a)
      && (a.content.Kids? <==> b.content.Kids?)
      && |MessageBodySchemas(b)| == |MessageBodySchemas(a)|
      && (a.content.Kids? ==> |b.content.kids| == |a.content.kids|)
  {
    ProcessAt(n, p, gen);
    ProcessKeepsSchemaCount(At(n, p), gen);
  }

  /** At an `httpRequest` below the root, the processed subtree gets its bodies. */
  lemma ProcessFrameRequest(n: Node, p: Path, gen: Faker)
    requires ValidPath(n, p) && p != [] && At(n, p).element == HttpRequestQuery
    ensures ValidPath(Process(n, gen), p)
    ensures
      var a, b := At(n, p), At(Process(n, gen), p);
      && b.element == a.element && b.classes == a.classes && b.attributes == a.attributes
      && (!a.content.Kids? ==> b == a)
      && (a.content.Kids? <==> b.content.Kids?)
      && |MessageBodySchemas(b)| == |MessageBodySchemas(a)|
      && (a.content.Kids? ==>
            && |b.content.kids| == |a.content.kids| + |MessageBodySchemas(a)|
            && forall j :: 0 <= j < |MessageBodySchemas(a)| ==>
                 b.content.kids[|a.content.kids| + j] == CreateMessageBodyAsset(MessageBodySchemas(b)[j].content, gen))
  {
    ProcessAt(n, p, gen);
    var a := At(n, p);
    assert At(Process(n, gen), p) == WithBodies(Process(a, gen), gen);
    ProcessedRequest(a, gen);
  }

  /** A request whose subtree is processed and which then gets its bodies. */
  lemma ProcessedRequest(a: Node, gen: Faker)
    ensures
      var b := WithBodies(Process(a, gen), gen);
      && b.element == a.element && b.classes == a.classes && b.attributes == a.attributes
      && (!a.content.Kids? ==> b == a)
      && (a.content.Kids? <==> b.content.Kids?)
      && |MessageBodySchemas(b)| == |MessageBodySchemas(a)|
      && (a.content.Kids? ==>
            && |b.content.kids| == |a.content.kids| + |MessageBodySchemas(a)|
            && forall j :: 0 <= j < |MessageBodySchemas(a)| ==>
                 b.content.kids[|a.content.kids| + j] == CreateMessageBodyAsset(MessageBodySchemas(b)[j].content, gen))
  {
    ProcessKeepsSchemaCount(a, gen);
  }

  /**
   * Frame: at every position of the input the result holds an element with
   * the same name, classes and attributes; string and missing contents are
   * untouched; arrays keep their length, except that an `httpRequest` below
   * the root grows by exactly its number of `messageBodySchema` children,
   * and the new children are the generated bodies, in schema order.
   */
  lemma ProcessFrame(n: Node, p: Path, gen: Faker)
    requires ValidPath(n, p)
    ensures ValidPath(Process(n, gen), p)
    ensures
      var a, b := At(n, p), At(Process(n, gen), p);
      && b.element == a.element && b.classes == a.classes && b.attributes == a.attributes
      && (!a.content.Kids? ==> b == a)
      && (a.content.Kids? <==> b.content.Kids?)
      && |MessageBodySchemas(b)| == |MessageBodySchemas(a)|
      && (a.content.Kids? && (p == [] || a.element != HttpRequestQuery) ==>
            |b.content.kids| == |a.content.kids|)
      && (a.content.Kids? && p != [] && a.element == HttpRequestQuery ==>
            && |b.content.kids| == |a.content.kids| + |MessageBodySchemas(a)|
            && forall j :: 0 <= j < |MessageBodySchemas(a)| ==>
                 b.content.kids[|a.content.kids| + j] == CreateMessageBodyAsset(MessageBodySchemas(b)[j].content, gen))
  {
    if p != [] && At(n, p).element == HttpRequestQuery {
      ProcessFrameRequest(n, p, gen);
    } else {
      ProcessFrameOther(n, p, gen);
    }
  }

  /**
   * The existing children of any element keep their index; at each of them
   * sits an element with the same name, classes and attributes.
   */
  lemma ProcessKeepsChildren(n: Node, p: Path, i: nat, gen: Faker)
    requires ValidPath(n, p) && At(n, p).content.Kids? && i < |At(n, p).content.kids|
    ensures ValidPath(n, p + [i]) && At(n, p + [i]) == At(n, p).content.kids[i]
    ensures ValidPath(Process(n, gen), p + [i])
    ensures var a, b := At(n, p + [i]), At(Process(n, gen), p + [i]);
      b.element == a.element && b.classes == a.classes && b.attributes == a.attributes
  {
    PathExtend(n, p, i);
    ProcessFrame(n, p + [i], gen);
  }

  lemma {:induction false} PathExtend(n: Node, p: Path, i: nat)
    requires ValidPath(n, p) && At(n, p).content.Kids? && i < |At(n, p).content.kids|
    ensures ValidPath(n, p + [i]) && At(n, p + [i]) == At(n, p).content.kids[i]
    decreases p
  {
    if p == [] {
      assert [] + [i] == [i] && [i][1..] == [];
    } else {
      assert (p + [i])[0] == p[0] && (p + [i])[1..] == p[1..] + [i];
      PathExtend(n.content.kids[p[0]], p[1..], i);
    }
  }

  /** A tree without any `httpRequest` below its root comes back unchanged. */
  lemma {:induction false} ProcessWithoutRequests(n: Node, gen: Faker)
    requires Query(n, HttpRequestQuery) == []
    ensures Process(n, gen) == n
  {
    if n.content.Kids? {
      var ks := n.content.kids;
      var qs := seq(|ks|, i requires 0 <= i < |ks| => Query(ks[i], HttpRequestQuery));
      assert Flatten(qs) == [];
      FlattenEmpty(qs);
      forall i | 0 <= i < |ks|
        ensures ProcessChild(ks[i], gen) == ks[i]
      {
        assert qs[i] == [];
        ProcessWithoutRequests(ks[i], gen);
        assert ks[i] !in Where(ks, HttpRequestQuery);
      }
      assert Process(n, gen).content.kids == ks;
    }
  }

  /**
   * A request without `messageBodySchema` children and without requests
   * below it is left exactly as it was.
   */
  lemma RequestWithoutSchemasUnchanged(n: Node, p: Path, gen: Faker)
    requires ValidPath(n, p) && p != []
    requires At(n, p).element == HttpRequestQuery
    requires MessageBodySchemas(At(n, p)) == []
    requires Query(At(n, p), HttpRequestQuery) == []
    ensures ValidPath(Process(n, gen), p) && At(Process(n, gen), p) == At(n, p)
  {
    ProcessAt(n, p, gen);
    ProcessWithoutRequests(At(n, p), gen);
  }
}
