/**
 * The open-node stack of the parser. In Java the stack holds references to
 * nodes that are also reachable from the module, and `nodeStack.peek()` is
 * updated in place. Here the tree is a value, and the stack holds the position
 * of each open node among its siblings: `path[0]` indexes the module's
 * top-level nodes and `path[i + 1]` the children of the node at `path[..i + 1]`.
 */
module NodePaths {
  import opened Wrappers
  import opened YangModel

  predicate ValidPath(nodes: seq<YangNode>, path: seq<nat>)
    decreases path
  {
    path == [] || (path[0] < |nodes| && ValidPath(nodes[path[0]].children, path[1..]))
  }

  /** The node a stack entry refers to. */
  function NodeAt(nodes: seq<YangNode>, path: seq<nat>): YangNode
    requires path != [] && ValidPath(nodes, path)
    decreases path
  {
    if |path| == 1 then nodes[path[0]] else NodeAt(nodes[path[0]].children, path[1..])
  }

  /** The updates the parser makes through `nodeStack.peek()`. */
  datatype Edit = SetDataType(t: string) | SetMandatory(b: bool) | SetDescription(d: string) | AddChild(c: YangNode)

  function Apply(n: YangNode, e: Edit): (r: YangNode)
    ensures r.name == n.name && r.kind == n.kind
    ensures |r.children| >= |n.children| && r.children[..|n.children|] == n.children
  {
    match e
    case SetDataType(t) => n.SetDataType(t)
    case SetMandatory(b) => n.SetMandatory(b)
    case SetDescription(d) => n.SetDescription(d)
    case AddChild(c) => n.AddChild(c)
  }

  /** An edit that keeps a canonical node canonical. */
  predicate CanonicalEdit(e: Edit)
  {
    match e
    case SetDataType(t) => t != ""
    case SetMandatory(_) => true
    case SetDescription(d) => d != ""
    case AddChild(c) => Canonical(c)
  }

  /**
   * The tree after editing the node at `path`: that node is edited, the other
   * top-level entries are untouched, and the path still leads to it.
   */
  function UpdateAt(nodes: seq<YangNode>, path: seq<nat>, e: Edit): (r: seq<YangNode>)
    requires path != [] && ValidPath(nodes, path)
    ensures |r| == |nodes|
    ensures ValidPath(r, path) && NodeAt(r, path) == Apply(NodeAt(nodes, path), e)
    ensures forall i :: 0 <= i < |nodes| && i != path[0] ==> r[i] == nodes[i]
    ensures r[path[0]].name == nodes[path[0]].name && r[path[0]].kind == nodes[path[0]].kind
    ensures |path| > 1 ==> |r[path[0]].children| == |nodes[path[0]].children|
    decreases path
  {
    var n := nodes[path[0]];
    if |path| == 1 then nodes[path[0] := Apply(n, e)]
    else nodes[path[0] := n.(children := UpdateAt(n.children, path[1..], e))]
  }

  predicate IsPrefix(q: seq<nat>, p: seq<nat>)
  {
    |q| <= |p| && p[..|q|] == q
  }

  /**
   * Editing the node at `path` changes no node other than that one and its
   * ancestors: the paths that are not prefixes of `path` still lead to the same
   * nodes. This is what the Java aliasing of the stack amounts to.
   */
  lemma {:induction false} UpdateAtFrame(nodes: seq<YangNode>, path: seq<nat>, e: Edit, q: seq<nat>)
    requires path != [] && ValidPath(nodes, path)
    requires q != [] && ValidPath(nodes, q) && !IsPrefix(q, path)
    ensures ValidPath(UpdateAt(nodes, path, e), q)
    ensures NodeAt(UpdateAt(nodes, path, e), q) == NodeAt(nodes, q)
    decreases path
  {
    var r := UpdateAt(nodes, path, e);
    if q[0] != path[0] {
      assert r[q[0]] == nodes[q[0]];
    } else if |path| == 1 {
      assert |q| > 1;
      var old_children := nodes[q[0]].children;
      var new_children := r[q[0]].children;
      assert new_children[..|old_children|] == old_children;
      assert q[1] < |old_children|;
      assert new_children[q[1]] == old_children[q[1]];
      assert q[1..][1..] == q[2..];
    } else {
      assert |q| > 1;
      assert !IsPrefix(q[1..], path[1..]);
      UpdateAtFrame(nodes[path[0]].children, path[1..], e, q[1..]);
    }
  }

  /** A prefix of a valid path is valid. */
  lemma {:induction false} ValidPrefix(nodes: seq<YangNode>, path: seq<nat>, k: nat)
    requires ValidPath(nodes, path) && k <= |path|
    ensures ValidPath(nodes, path[..k])
    decreases path
  {
    if k > 0 {
      assert path[..k][1..] == path[1..][..k - 1];
      ValidPrefix(nodes[path[0]].children, path[1..], k - 1);
    }
  }

  /**
   * Editing the node at `path` leaves every strict ancestor of it as it was,
   * except for the one child on the path: same name, kind, description, data
   * type, flag, and as many children.
   */
  lemma {:induction false} UpdateAtAncestors(nodes: seq<YangNode>, path: seq<nat>, e: Edit, k: nat)
    requires path != [] && ValidPath(nodes, path) && 0 < k < |path|
    ensures ValidPath(nodes, path[..k]) && ValidPath(UpdateAt(nodes, path, e), path[..k])
    ensures var a, a' := NodeAt(nodes, path[..k]), NodeAt(UpdateAt(nodes, path, e), path[..k]);
      a'.(children := a.children) == a && |a'.children| == |a.children|
    decreases path
  {
    var n := nodes[path[0]];
    var r := UpdateAt(nodes, path, e);
    ValidPrefix(nodes, path, k);
    assert path[..k][0] == path[0];
    if k == 1 {
      assert path[..1][1..] == [];
    } else {
      assert path[..k][1..] == path[1..][..k - 1];
      assert path[..k - 1 + 1][1..] == path[1..][..k - 1];
      assert ValidPath(n.children, path[1..][..k - 1]) by {
        ValidPrefix(n.children, path[1..], k - 1);
      }
      UpdateAtAncestors(n.children, path[1..], e, k - 1);
    }
  }

  /**
   * `after` is `before` with only the node at `path` and its ancestors changed:
   * every path off `path` leads to the same node, and each strict ancestor
   * keeps its own fields and its number of children.
   */
  ghost predicate ChangedOnlyAlong(before: seq<YangNode>, after: seq<YangNode>, path: seq<nat>)
  {
    && (forall q :: q != [] && ValidPath(before, q) && !IsPrefix(q, path) ==>
          ValidPath(after, q) && NodeAt(after, q) == NodeAt(before, q))
    && (forall k :: 0 < k < |path| ==>
          && ValidPath(before, path[..k]) && ValidPath(after, path[..k])
          && NodeAt(after, path[..k]).(children := NodeAt(before, path[..k]).children) == NodeAt(before, path[..k])
          && |NodeAt(after, path[..k]).children| == |NodeAt(before, path[..k]).children|)
  }

  /**
   * An edit through the open path changes nothing off the path, and of each
   * ancestor only its child on the path.
   */
  lemma UpdateAtChangesOnlyAlong(nodes: seq<YangNode>, path: seq<nat>, e: Edit)
    requires path != [] && ValidPath(nodes, path)
    ensures ChangedOnlyAlong(nodes, UpdateAt(nodes, path, e), path)
  {
    var r := UpdateAt(nodes, path, e);
    forall q | q != [] && ValidPath(nodes, q) && !IsPrefix(q, path)
      ensures ValidPath(r, q) && NodeAt(r, q) == NodeAt(nodes, q)
    {
      UpdateAtFrame(nodes, path, e, q);
    }
    forall k | 0 < k < |path|
      ensures && ValidPath(nodes, path[..k]) && ValidPath(r, path[..k])
              && NodeAt(r, path[..k]).(children := NodeAt(nodes, path[..k]).children) == NodeAt(nodes, path[..k])
              && |NodeAt(r, path[..k]).children| == |NodeAt(nodes, path[..k]).children|
    {
      ValidPrefix(nodes, path, k);
      UpdateAtAncestors(nodes, path, e, k);
    }
  }

  /**
   * The stack is a root-to-innermost path along LAST children: the first entry
   * is the last top-level node, and each further entry the last child of the
   * entry before it.
   */
  predicate IsSpine(nodes: seq<YangNode>, path: seq<nat>)
    ensures IsSpine(nodes, path) ==> ValidPath(nodes, path)
    decreases path
  {
    path == [] || (|nodes| > 0 && path[0] == |nodes| - 1 && IsSpine(nodes[path[0]].children, path[1..]))
  }

  /** Popping the stack keeps it a spine. */
  lemma {:induction false} SpinePrefix(nodes: seq<YangNode>, path: seq<nat>, k: nat)
    requires IsSpine(nodes, path) && k <= |path|
    ensures IsSpine(nodes, path[..k])
    decreases path
  {
    if k > 0 {
      assert path[..k][1..] == path[1..][..k - 1];
      SpinePrefix(nodes[path[0]].children, path[1..], k - 1);
    }
  }

  /** An edit of the innermost open node keeps the stack a spine. */
  lemma {:induction false} SpineAfterUpdate(nodes: seq<YangNode>, path: seq<nat>, e: Edit)
    requires path != [] && IsSpine(nodes, path)
    ensures IsSpine(UpdateAt(nodes, path, e), path)
    decreases path
  {
    if |path| > 1 {
      SpineAfterUpdate(nodes[path[0]].children, path[1..], e);
    }
  }

  /** Pushing the position of the last child of the innermost open node keeps the stack a spine. */
  lemma {:induction false} SpineExtend(nodes: seq<YangNode>, path: seq<nat>, p: nat)
    requires path != [] && IsSpine(nodes, path)
    requires p + 1 == |NodeAt(nodes, path).children|
    ensures IsSpine(nodes, path + [p])
    ensures NodeAt(nodes, path + [p]) == NodeAt(nodes, path).children[p]
    decreases path
  {
    var ext := path + [p];
    assert ext[0] == path[0];
    if |path| == 1 {
      assert ext[1..] == [p];
    } else {
      assert ext[1..] == path[1..] + [p];
      SpineExtend(nodes[path[0]].children, path[1..], p);
    }
  }

  /** Editing a node with a canonical edit keeps the whole tree canonical. */
  lemma {:induction false} UpdateAtCanonical(nodes: seq<YangNode>, path: seq<nat>, e: Edit)
    requires path != [] && ValidPath(nodes, path)
    requires AllCanonical(nodes) && CanonicalEdit(e)
    ensures AllCanonical(UpdateAt(nodes, path, e))
    decreases path
  {
    var r := UpdateAt(nodes, path, e);
    var n := nodes[path[0]];
    if |path| == 1 {
      var m := Apply(n, e);
      assert forall i :: 0 <= i < |m.children| ==> Canonical(m.children[i]) by {
        forall i | 0 <= i < |m.children| ensures Canonical(m.children[i]) {
          if i < |n.children| {
            assert m.children[i] == m.children[..|n.children|][i];
          }
        }
      }
      assert Canonical(m);
    } else {
      UpdateAtCanonical(n.children, path[1..], e);
      assert Canonical(r[path[0]]);
    }
  }
}
