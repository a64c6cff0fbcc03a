/**
 * `queryElement`: every element below a node whose `element` name equals the
 * pattern's.  At each node the result is the concatenation, child by child,
 * of the child's own query result, followed by the node's directly matching
 * children in child order.  The node it is called on is never tested, and a
 * node whose content is missing or a string yields nothing.
 */
module QueryElement {
  import opened Refract

  /** `lodash.where(children, {element: name})`: the matching children, in order. */
  function Where(ks: seq<Node>, name: string): (r: seq<Node>)
    ensures forall x :: x in r <==> x in ks && x.element == name
    ensures |r| <= |ks|
  {
    if ks == [] then []
    else
      var last := ks[|ks| - 1];
      Where(ks[..|ks| - 1], name) + (if last.element == name then [last] else [])
  }

  /** The recursive results of the children, in child order, flattened. */
  function Nested(ks: seq<Node>, name: string): (r: seq<Node>)
    ensures forall x :: x in r <==> exists i :: 0 <= i < |ks| && x in Query(ks[i], name)
  {
    var qs := seq(|ks|, i requires 0 <= i < |ks| => Query(ks[i], name));
    FlattenMember(qs);
    assert forall i :: 0 <= i < |ks| ==> qs[i] == Query(ks[i], name);
    Flatten(qs)
  }

  function Query(n: Node, name: string): (r: seq<Node>)
    ensures !n.content.Kids? ==> r == []
  {
    match n.content
    case Kids(ks) => Nested(ks, name) + Where(ks, name)
    case _ => []
  }

  /** Positions of the matching children, as one-step paths, in child order. */
  function WherePaths(ks: seq<Node>, name: string): (r: seq<Path>)
    ensures |r| == |Where(ks, name)|
    ensures forall j :: 0 <= j < |r| ==> |r[j]| == 1 && r[j][0] < |ks| && ks[r[j][0]] == Where(ks, name)[j]
  {
    if ks == [] then []
    else
      var m := |ks| - 1;
      assert ks[..m][..m] == ks[..m];
      WherePaths(ks[..m], name) + (if ks[m].element == name then [[m]] else [])
  }

  /** Every path in `ps`, prefixed with the child index `i`. */
  function Prefix(i: nat, ps: seq<Path>): (r: seq<Path>)
    ensures |r| == |ps|
    ensures forall j :: 0 <= j < |ps| ==> r[j] == [i] + ps[j]
  {
    seq(|ps|, j requires 0 <= j < |ps| => [i] + ps[j])
  }

  /**
   * The positions of `Query(n, name)`'s results, computed the same way: one
   * per result, none of them the node itself.
   */
  function QueryPaths(n: Node, name: string): (r: seq<Path>)
    ensures |r| == |Query(n, name)|
    ensures forall j :: 0 <= j < |r| ==> r[j] != []
  {
    match n.content
    case Kids(ks) =>
      var ps := seq(|ks|, i requires 0 <= i < |ks| => Prefix(i, QueryPaths(ks[i], name)));
      var qs := seq(|ks|, i requires 0 <= i < |ks| => Query(ks[i], name));
      FlattenPairwise(ps, qs, (p: Path, x: Node) => p != []);
      Flatten(ps) + WherePaths(ks, name)
    case _ => []
  }

  lemma {:induction false} WhereAppend(a: seq<Node>, b: seq<Node>, name: string)
    ensures Where(a + b, name) == Where(a, name) + Where(b, name)
  {
    if b == [] {
      assert a + b == a;
    } else {
      var m := |b| - 1;
      assert (a + b)[..|a + b| - 1] == a + b[..m];
      WhereAppend(a, b[..m], name);
    }
  }

  lemma {:induction false} WhereFlatten(ss: seq<seq<Node>>, name: string)
    ensures Where(Flatten(ss), name) == Flatten(seq(|ss|, i requires 0 <= i < |ss| => Where(ss[i], name)))
  {
    var ws := seq(|ss|, i requires 0 <= i < |ss| => Where(ss[i], name));
    if ss != [] {
      WhereAppend(ss[0], Flatten(ss[1..]), name);
      WhereFlatten(ss[1..], name);
      assert ws[1..] == seq(|ss[1..]|, i requires 0 <= i < |ss[1..]| => Where(ss[1..][i], name));
    }
  }

  lemma {:induction false} FlattenSingletons(ks: seq<Node>)
    ensures Flatten(seq(|ks|, i requires 0 <= i < |ks| => [ks[i]])) == ks
  {
    var ss := seq(|ks|, i requires 0 <= i < |ks| => [ks[i]]);
    if ks != [] {
      FlattenSingletons(ks[1..]);
      assert ss[1..] == seq(|ks[1..]|, i requires 0 <= i < |ks[1..]| => [ks[1..][i]]);
    }
  }

  /** Soundness: every result is a descendant of `n` whose `element` is `name`. */
  lemma {:induction false} QuerySound(n: Node, name: string)
    ensures forall x :: x in Query(n, name) ==> x.element == name && x in Descendants(n)
  {
    if n.content.Kids? {
      var ks := n.content.kids;
      var ds := seq(|ks|, i requires 0 <= i < |ks| => [ks[i]] + Descendants(ks[i]));
      FlattenMember(ds);
      forall x | x in Query(n, name)
        ensures x.element == name && x in Descendants(n)
      {
        if x in Nested(ks, name) {
          var i :| 0 <= i < |ks| && x in Query(ks[i], name);
          QuerySound(ks[i], name);
          assert x in ds[i];
        } else {
          var i :| 0 <= i < |ks| && ks[i] == x;
          assert x in ds[i];
        }
      }
    }
  }

  /** The node a query is called on is never among its own results. */
  lemma QueryExcludesSelf(n: Node, name: string)
    ensures n !in Query(n, name)
  {
    QuerySound(n, name);
    DescendantsIrreflexive(n);
  }

  /**
   * Completeness: the results are exactly the matching descendants, each as
   * often as it occurs in the tree (only the order differs from pre-order).
   */
  lemma {:induction false} QueryComplete(n: Node, name: string)
    ensures multiset(Query(n, name)) == multiset(Where(Descendants(n), name))
    ensures |Query(n, name)| == |Where(Descendants(n), name)|
  {
    if n.content.Kids? {
      var ks := n.content.kids;
      var qs := seq(|ks|, i requires 0 <= i < |ks| => Query(ks[i], name));
      var ds := seq(|ks|, i requires 0 <= i < |ks| => [ks[i]] + Descendants(ks[i]));
      var wds := seq(|ds|, i requires 0 <= i < |ds| => Where(ds[i], name));
      var ones := seq(|ks|, i requires 0 <= i < |ks| => [ks[i]]);
      var wones := seq(|ones|, i requires 0 <= i < |ones| => Where(ones[i], name));
      forall i | 0 <= i < |ks|
        ensures multiset(wds[i]) == multiset(qs[i]) + multiset(wones[i])
      {
        WhereAppend([ks[i]], Descendants(ks[i]), name);
        QueryComplete(ks[i], name);
      }
      FlattenMultiset(wds, qs, wones);
      WhereFlatten(ds, name);
      WhereFlatten(ones, name);
      FlattenSingletons(ks);
    }
    assert |multiset(Query(n, name))| == |multiset(Where(Descendants(n), name))|;
  }

  /**
   * Ordering: for children `a + b`, all recursive results of `a` and then of
   * `b` come before any directly matching child of either.
   */
  lemma {:induction false} QueryOrder(n: Node, a: seq<Node>, b: seq<Node>, name: string)
    requires n.content == Kids(a + b)
    ensures Query(n, name) == Nested(a, name) + Nested(b, name) + Where(a, name) + Where(b, name)
  {
    var ks := a + b;
    var qs := seq(|ks|, i requires 0 <= i < |ks| => Query(ks[i], name));
    assert qs == seq(|a|, i requires 0 <= i < |a| => Query(a[i], name))
               + seq(|b|, i requires 0 <= i < |b| => Query(b[i], name));
    FlattenAppend(seq(|a|, i requires 0 <= i < |a| => Query(a[i], name)),
                  seq(|b|, i requires 0 <= i < |b| => Query(b[i], name)));
    WhereAppend(a, b, name);
  }

  /** `p` is a proper position in the tree rooted at `n`, and the element there is `x`. */
  predicate Locates(n: Node, p: Path, x: Node)
  {
    p != [] && ValidPath(n, p) && At(n, p) == x
  }

  lemma ChildLocates(n: Node, i: nat, q: Path, x: Node)
    requires n.content.Kids? && i < |n.content.kids|
    requires q == [] || Locates(n.content.kids[i], q, x)
    requires q == [] ==> x == n.content.kids[i]
    ensures Locates(n, [i] + q, x)
  {
    assert ([i] + q)[0] == i && ([i] + q)[1..] == q;
  }

  /**
   * The results are the tree's own elements: the j-th path of `QueryPaths`
   * leads, through array contents, to the j-th result, and is never empty.
   */
  lemma {:induction false} QueryPathsLocate(n: Node, name: string)
    ensures |QueryPaths(n, name)| == |Query(n, name)|
    ensures forall j :: 0 <= j < |QueryPaths(n, name)| ==> Locates(n, QueryPaths(n, name)[j], Query(n, name)[j])
  {
    if n.content.Kids? {
      var ks := n.content.kids;
      var ps := seq(|ks|, i requires 0 <= i < |ks| => Prefix(i, QueryPaths(ks[i], name)));
      var qs := seq(|ks|, i requires 0 <= i < |ks| => Query(ks[i], name));
      var R := (p: Path, x: Node) => Locates(n, p, x);
      forall i | 0 <= i < |ps|
        ensures |ps[i]| == |qs[i]|
        ensures forall j :: 0 <= j < |ps[i]| ==> R(ps[i][j], qs[i][j])
      {
        QueryPathsLocate(ks[i], name);
        forall j | 0 <= j < |ps[i]|
          ensures R(ps[i][j], qs[i][j])
        {
          ChildLocates(n, i, QueryPaths(ks[i], name)[j], qs[i][j]);
        }
      }
      FlattenPairwise(ps, qs, R);
      ConcatLocates(n, Flatten(ps), Flatten(qs), WherePaths(ks, name), Where(ks, name));
    }
  }

  lemma ConcatLocates(n: Node, ps: seq<Path>, xs: seq<Node>, wp: seq<Path>, ws: seq<Node>)
    requires n.content.Kids?
    requires |ps| == |xs| && forall k :: 0 <= k < |ps| ==> Locates(n, ps[k], xs[k])
    requires |wp| == |ws|
    requires forall j :: 0 <= j < |wp| ==> |wp[j]| == 1 && wp[j][0] < |n.content.kids| && n.content.kids[wp[j][0]] == ws[j]
    ensures forall k :: 0 <= k < |ps + wp| ==> Locates(n, (ps + wp)[k], (xs + ws)[k])
  {
    forall k | 0 <= k < |ps + wp|
      ensures Locates(n, (ps + wp)[k], (xs + ws)[k])
    {
      if k >= |ps| {
        var j := k - |ps|;
        assert wp[j] == [wp[j][0]] + [];
        ChildLocates(n, wp[j][0], [], ws[j]);
      }
    }
  }
}
