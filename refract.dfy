/**
 * The Refract element tree that both the query and the body generator work on.
 *
 * A Refract element is a record with an `element` name, the `meta.classes`
 * list, an `attributes` dictionary and a `content` that is either a string,
 * an array of nested elements, or missing.  The JavaScript objects are values
 * here: a position in the tree is a `Path`, the list of child indices that
 * leads from the root to an element.
 */
module Refract {

  /** `content` of an element: missing (or falsy), a string, or child elements. */
  datatype Content = Empty | Str(text: string) | Kids(kids: seq<Node>)

  datatype Node = Node(
    element: string,
    classes: seq<string>,
    attributes: map<string, string>,
    content: Content)

  /** Child indices from an element down to one of its descendants. */
  type Path = seq<nat>

  /** `lodash.flatten` of one level: the blocks concatenated in order. */
  function Flatten<T>(ss: seq<seq<T>>): seq<T>
  {
    if ss == [] then [] else ss[0] + Flatten(ss[1..])
  }

  lemma {:induction false} FlattenAppend<T>(a: seq<seq<T>>, b: seq<seq<T>>)
    ensures Flatten(a + b) == Flatten(a) + Flatten(b)
  {
    if a != [] {
      assert (a + b)[1..] == a[1..] + b;
      FlattenAppend(a[1..], b);
    } else {
      assert a + b == b;
    }
  }

  /** An element is in the flattened list exactly when it is in one of the blocks. */
  lemma {:induction false} FlattenMember<T>(ss: seq<seq<T>>)
    ensures forall x :: x in Flatten(ss) <==> exists i :: 0 <= i < |ss| && x in ss[i]
  {
    if ss != [] {
      FlattenMember(ss[1..]);
      forall x
        ensures x in Flatten(ss) <==> exists i :: 0 <= i < |ss| && x in ss[i]
      {
        if x in Flatten(ss[1..]) {
          var i :| 0 <= i < |ss[1..]| && x in ss[1..][i];
          assert x in ss[i + 1];
        }
        if exists i :: 0 <= i < |ss| && x in ss[i] {
          var i :| 0 <= i < |ss| && x in ss[i];
          if i > 0 {
            assert x in ss[1..][i - 1];
          }
        }
      }
    }
  }

  lemma {:induction false} FlattenBlockLength<T>(ss: seq<seq<T>>, i: nat)
    requires i < |ss|
    ensures |ss[i]| <= |Flatten(ss)|
  {
    if i > 0 {
      FlattenBlockLength(ss[1..], i - 1);
    }
  }

  /** The flattened list is empty exactly when every block is. */
  lemma {:induction false} FlattenEmpty<T>(ss: seq<seq<T>>)
    ensures Flatten(ss) == [] <==> forall i :: 0 <= i < |ss| ==> ss[i] == []
  {
    if ss != [] {
      FlattenEmpty(ss[1..]);
      assert forall i :: 0 < i < |ss| ==> ss[i] == ss[1..][i - 1];
    }
  }

  /** Two lists of blocks with the same block lengths, related blockwise by R, flatten to lists related by R. */
  lemma {:induction false} FlattenPairwise<A, B>(xs: seq<seq<A>>, ys: seq<seq<B>>, R: (A, B) -> bool)
    requires |xs| == |ys|
    requires forall i :: 0 <= i < |xs| ==> |xs[i]| == |ys[i]|
    requires forall i, j :: 0 <= i < |xs| && 0 <= j < |xs[i]| ==> R(xs[i][j], ys[i][j])
    ensures |Flatten(xs)| == |Flatten(ys)|
    ensures forall k :: 0 <= k < |Flatten(xs)| ==> R(Flatten(xs)[k], Flatten(ys)[k])
  {
    if xs != [] {
      assert forall i :: 0 <= i < |xs[1..]| ==> xs[1..][i] == xs[i + 1] && ys[1..][i] == ys[i + 1];
      FlattenPairwise(xs[1..], ys[1..], R);
    }
  }

  lemma {:induction false} FlattenMultiset<T>(a: seq<seq<T>>, b: seq<seq<T>>, c: seq<seq<T>>)
    requires |a| == |b| == |c|
    requires forall i :: 0 <= i < |a| ==> multiset(a[i]) == multiset(b[i]) + multiset(c[i])
    ensures multiset(Flatten(a)) == multiset(Flatten(b)) + multiset(Flatten(c))
  {
    if a != [] {
      assert forall i :: 0 <= i < |a[1..]| ==> a[1..][i] == a[i + 1] && b[1..][i] == b[i + 1] && c[1..][i] == c[i + 1];
      FlattenMultiset(a[1..], b[1..], c[1..]);
    }
  }

  /** `p` leads through array contents to an element of the tree rooted at `n`. */
  predicate ValidPath(n: Node, p: Path)
    decreases p
  {
    p == [] || (n.content.Kids? && p[0] < |n.content.kids| && ValidPath(n.content.kids[p[0]], p[1..]))
  }

  /** The element that `p` leads to. */
  function At(n: Node, p: Path): (r: Node)
    requires ValidPath(n, p)
    decreases p
  {
    if p == [] then n else At(n.content.kids[p[0]], p[1..])
  }

  /** The tree with the element at `p` replaced by `v`. */
  function Replace(n: Node, p: Path, v: Node): (r: Node)
    requires ValidPath(n, p)
    ensures ValidPath(r, p) && At(r, p) == v
    decreases p
  {
    if p == [] then v
    else
      var ks := n.content.kids;
      n.(content := Kids(ks[p[0] := Replace(ks[p[0]], p[1..], v)]))
  }

  /** Every element below `n` reached through array contents, in pre-order. */
  function Descendants(n: Node): seq<Node>
  {
    match n.content
    case Kids(ks) => Flatten(seq(|ks|, i requires 0 <= i < |ks| => [ks[i]] + Descendants(ks[i])))
    case _ => []
  }

  /** A descendant has strictly fewer descendants than its ancestor; hence no element is its own descendant. */
  lemma {:induction false} DescendantsShrink(n: Node, x: Node)
    requires x in Descendants(n)
    ensures |Descendants(x)| < |Descendants(n)|
  {
    var ks := n.content.kids;
    var blocks := seq(|ks|, i requires 0 <= i < |ks| => [ks[i]] + Descendants(ks[i]));
    FlattenMember(blocks);
    var i :| 0 <= i < |blocks| && x in blocks[i];
    FlattenBlockLength(blocks, i);
    if x != ks[i] {
      DescendantsShrink(ks[i], x);
    }
  }

  lemma DescendantsIrreflexive(n: Node)
    ensures n !in Descendants(n)
  {
    if n in Descendants(n) {
      DescendantsShrink(n, n);
    }
  }
}
