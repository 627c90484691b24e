/** The concrete syntax tree handed over by the parser, and the kind-filtered
    pre-order walk of `traverse_type` / `get_node_by_kind`. */
module SyntaxTree {
  import opened Common

  /** A (row, column) position, as tree-sitter's `start_point`/`end_point`;
      the column counts bytes. */
  datatype Point = Point(row: nat, column: nat)

  /** A parser node: its kind tag, its text, its span and its ordered children. */
  datatype Node = Node(kind: string, text: string, start: Point, end: Point, children: seq<Node>)

  /** `x` can be reached from `n` by stepping to children whose kind is not in
      `ignore`, never stepping out of a node whose kind is in `stopAt`. The
      starting node itself is not tested against `ignore`. */
  ghost predicate Reaches(n: Node, x: Node, ignore: set<string>, stopAt: set<string>)
    decreases n
  {
    || x == n
    || (n.kind !in stopAt &&
        exists i :: 0 <= i < |n.children| && n.children[i].kind !in ignore
                    && Reaches(n.children[i], x, ignore, stopAt))
  }

  /** Whether `get_node_by_kind` reports a node of kind `k`: every node when
      `kind` is None, else those whose kind is listed. */
  predicate Wanted(k: string, kind: Option<set<string>>)
  {
    kind.None? || k in kind.value
  }

  /** The nodes `traverse_type` appends, in order. */
  function Collect(n: Node, kind: Option<set<string>>, ignore: set<string>, avoidNested: bool): seq<Node>
    decreases n, 1
  {
    if kind.Some? && n.kind in kind.value && avoidNested then [n]
    else (if Wanted(n.kind, kind) then [n] else []) + CollectFrom(n, 0, kind, ignore, avoidNested)
  }

  /** What the walk appends for the children of `n` from index `i` on. */
  function CollectFrom(n: Node, i: nat, kind: Option<set<string>>, ignore: set<string>, avoidNested: bool): seq<Node>
    requires i <= |n.children|
    decreases n, 0, |n.children| - i
  {
    if i == |n.children| then []
    else
      (if n.children[i].kind in ignore then [] else Collect(n.children[i], kind, ignore, avoidNested))
      + CollectFrom(n, i + 1, kind, ignore, avoidNested)
  }

  /** `traverse_type`: appends to `results` every node it reports, visiting
      `node` before its children and the children in order. */
  method TraverseType(node: Node, results: seq<Node>, kind: Option<set<string>>, ignore: set<string>, avoidNested: bool)
    returns (out: seq<Node>)
    ensures out == results + Collect(node, kind, ignore, avoidNested)
    decreases node
  {
    out := results;
    if kind.None? {
      out := out + [node];
    } else if node.kind in kind.value {
      out := out + [node];
      if avoidNested {
        return;
      }
    }
    assert out == results + (if Wanted(node.kind, kind) then [node] else []);
    AppendAssoc(results, if Wanted(node.kind, kind) then [node] else [], CollectFrom(node, 0, kind, ignore, avoidNested));
    var i := 0;
    while i < |node.children|
      invariant i <= |node.children|
      invariant out + CollectFrom(node, i, kind, ignore, avoidNested) == results + Collect(node, kind, ignore, avoidNested)
    {
      var child := node.children[i];
      ghost var later := CollectFrom(node, i + 1, kind, ignore, avoidNested);
      if child.kind !in ignore {
        ghost var before := out;
        out := TraverseType(child, out, kind, ignore, avoidNested);
        AppendAssoc(before, Collect(child, kind, ignore, avoidNested), later);
      } else {
        assert CollectFrom(node, i, kind, ignore, avoidNested) == [] + later;
        assert [] + later == later;
      }
      i := i + 1;
    }
  }

  /** `get_node_by_kind`: the walk started with an empty result list. */
  method GetNodeByKind(root: Node, kind: Option<set<string>>, ignore: set<string>, avoidNested: bool)
    returns (nodes: seq<Node>)
    ensures forall x :: x in nodes <==>
      Wanted(x.kind, kind) && Reaches(root, x, ignore, if avoidNested && kind.Some? then kind.value else {})
    ensures nodes == Collect(root, kind, ignore, avoidNested)
  {
    nodes := TraverseType(root, [], kind, ignore, avoidNested);
    CollectMembers(root, kind, ignore, avoidNested);
  }

  /** Exactly the wanted nodes reachable through non-ignored children are
      reported; with `avoidNested` a reported node's descendants are not
      visited, so they are reported only if reachable another way. */
  lemma {:induction false} CollectMembers(n: Node, kind: Option<set<string>>, ignore: set<string>, avoidNested: bool)
    ensures forall x :: x in Collect(n, kind, ignore, avoidNested) <==>
      Wanted(x.kind, kind) && Reaches(n, x, ignore, if avoidNested && kind.Some? then kind.value else {})
    decreases n, 1
  {
    var stop := if avoidNested && kind.Some? then kind.value else {};
    if kind.Some? && n.kind in kind.value && avoidNested {
      forall x ensures x in Collect(n, kind, ignore, avoidNested) <==> Wanted(x.kind, kind) && Reaches(n, x, ignore, stop) {
        assert n.kind in stop;
      }
    } else {
      CollectFromMembers(n, 0, kind, ignore, avoidNested);
      assert n.kind !in stop;
    }
  }

  lemma {:induction false} CollectFromMembers(n: Node, i: nat, kind: Option<set<string>>, ignore: set<string>, avoidNested: bool)
    requires i <= |n.children|
    ensures forall x :: x in CollectFrom(n, i, kind, ignore, avoidNested) <==>
      exists j :: i <= j < |n.children| && n.children[j].kind !in ignore && Wanted(x.kind, kind)
        && Reaches(n.children[j], x, ignore, if avoidNested && kind.Some? then kind.value else {})
    decreases n, 0, |n.children| - i
  {
    if i < |n.children| {
      var stop := if avoidNested && kind.Some? then kind.value else {};
      var c := n.children[i];
      var head := if c.kind in ignore then [] else Collect(c, kind, ignore, avoidNested);
      var rest := CollectFrom(n, i + 1, kind, ignore, avoidNested);
      assert CollectFrom(n, i, kind, ignore, avoidNested) == head + rest;
      CollectFromMembers(n, i + 1, kind, ignore, avoidNested);
      if c.kind !in ignore {
        CollectMembers(c, kind, ignore, avoidNested);
      }
      forall x: Node ensures x in head + rest <==>
        exists j :: i <= j < |n.children| && n.children[j].kind !in ignore && Wanted(x.kind, kind)
          && Reaches(n.children[j], x, ignore, stop)
      {
        if exists j :: i <= j < |n.children| && n.children[j].kind !in ignore && Wanted(x.kind, kind)
             && Reaches(n.children[j], x, ignore, stop) {
          var j :| i <= j < |n.children| && n.children[j].kind !in ignore && Wanted(x.kind, kind)
                   && Reaches(n.children[j], x, ignore, stop);
          if j == i {
            assert x in head;
          } else {
            assert x in rest;
          }
        }
      }
    }
  }

  /** The walk starts with the root: it is reported first whenever it is
      wanted, even if its own kind is one of the ignored kinds. */
  lemma RootFirst(n: Node, kind: Option<set<string>>, ignore: set<string>, avoidNested: bool)
    requires Wanted(n.kind, kind)
    ensures Collect(n, kind, ignore, avoidNested) != [] && Collect(n, kind, ignore, avoidNested)[0] == n
  {
  }

  /** With `avoidNested`, a matching root is the only node reported. */
  lemma MatchStopsWalk(n: Node, kinds: set<string>, ignore: set<string>)
    requires n.kind in kinds
    ensures Collect(n, Some(kinds), ignore, true) == [n]
  {
  }

  /** Mapping `f` over the nodes the walk reports for `kinds` (without
      pruning) gives `f` of exactly the nodes of those kinds that are
      reachable through non-ignored children. */
  lemma ImageOfCollect<U>(n: Node, kinds: set<string>, ignore: set<string>, f: Node -> U)
    ensures forall y :: y in Image(Collect(n, Some(kinds), ignore, false), f) <==>
      exists x :: Reaches(n, x, ignore, {}) && x.kind in kinds && f(x) == y
  {
    var found := Collect(n, Some(kinds), ignore, false);
    CollectMembers(n, Some(kinds), ignore, false);
    forall y | y in Image(found, f) ensures exists x :: Reaches(n, x, ignore, {}) && x.kind in kinds && f(x) == y {
      var j :| 0 <= j < |found| && f(found[j]) == y;
      assert found[j] in found;
    }
    forall y | exists x :: Reaches(n, x, ignore, {}) && x.kind in kinds && f(x) == y
      ensures y in Image(found, f)
    {
      var x :| Reaches(n, x, ignore, {}) && x.kind in kinds && f(x) == y;
      assert x in found;
      var j :| 0 <= j < |found| && found[j] == x;
    }
  }
}
