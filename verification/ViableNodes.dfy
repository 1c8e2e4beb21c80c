/** Every leaf of the walked tree, found with a worklist. */
module ViableNodes {
  import opened Primitives
  import opened ForkChoiceTypes
  import opened Ancestry
  import opened Filter
  import opened Expansion
  import opened HeadKey
  import opened HeadWalk

  /** Some walk down from the justified block's pending node ends at `node`. */
  ghost predicate Reached(s: StoreView, tree: Blocks, node: Node) {
    exists p :: IsPath(s, tree, p) && p[0] == Node(s.justified.root, Pending) && p[|p| - 1] == node
  }

  ghost predicate IsLeaf(s: StoreView, tree: Blocks, node: Node) {
    Children(s, tree, node) == {}
  }

  lemma ChildIsReached(s: StoreView, tree: Blocks, node: Node, child: Node)
    requires Reached(s, tree, node) && child in Children(s, tree, node)
    ensures Reached(s, tree, child)
  {
    hide Children;
    var p :| IsPath(s, tree, p) && p[0] == Node(s.justified.root, Pending) && p[|p| - 1] == node;
    var q := p + [child];
    assert IsPath(s, tree, q) && q[0] == Node(s.justified.root, Pending) && q[|q| - 1] == child;
  }

  lemma StartIsReached(s: StoreView, tree: Blocks)
    ensures Reached(s, tree, Node(s.justified.root, Pending))
  {
    hide Children;
    var p := [Node(s.justified.root, Pending)];
    assert IsPath(s, tree, p) && p[|p| - 1] == Node(s.justified.root, Pending);
  }

  /** A set of nodes that holds the start and the children of its members holds them all. */
  lemma {:induction false} ClosedHoldsPath(s: StoreView, tree: Blocks, closed: set<Node>, p: seq<Node>)
    requires Node(s.justified.root, Pending) in closed
    requires forall n, c :: n in closed && c in Children(s, tree, n) ==> c in closed
    requires IsPath(s, tree, p) && p[0] == Node(s.justified.root, Pending)
    ensures p[|p| - 1] in closed
  {
    hide Children;
    if |p| > 1 {
      var init := p[..|p| - 1];
      ClosedHoldsPath(s, tree, closed, init);
      assert p[|p| - 2 + 1] in Children(s, tree, p[|p| - 2]);
    }
  }

  /** Nodes on the blocks in play. */
  ghost function Universe(tree: Blocks, top: Root): set<Node> {
    set r, status | r in tree.Keys + {top} && status in {Empty, Full, Pending} :: Node(r, status)
  }

  lemma ReachedIsInPlay(s: StoreView, tree: Blocks, node: Node)
    requires Ordered(s.blocks) && TreeUnder(s, tree, s.justified.root) && Reached(s, tree, node)
    ensures node.root in s.blocks && node in Universe(tree, s.justified.root)
    ensures Depth(s, Node(s.justified.root, Pending)) <= Depth(s, node)
  {
    hide TreeUnder, Depth, Children;
    var p :| IsPath(s, tree, p) && p[0] == Node(s.justified.root, Pending) && p[|p| - 1] == node;
    TopIsStored(s, tree, s.justified.root);
    PathGoesDeeper(s, tree, s.justified.root, p);
    PathStaysInPlay(s, tree, s.justified.root, p);
  }

  lemma {:induction false} PathStaysInPlay(s: StoreView, tree: Blocks, top: Root, p: seq<Node>)
    requires IsPath(s, tree, p) && p[0] == Node(top, Pending)
    ensures p[|p| - 1] in Universe(tree, top)
  {
    if |p| > 1 {
      var init := p[..|p| - 1];
      PathStaysInPlay(s, tree, top, init);
      assert p[|p| - 2 + 1] in Children(s, tree, p[|p| - 2]);
    }
  }

  /** The worklist between two pops. */
  ghost predicate Midway(s: StoreView, tree: Blocks, visited: set<Node>, pending: seq<Node>) {
    var start := Node(s.justified.root, Pending);
    && Distinct(pending) && (forall n :: n in pending ==> n !in visited)
    && (forall n :: n in visited || n in pending ==> Reached(s, tree, n))
    && (start in visited || start in pending)
    && (forall n :: (n in visited || n in pending) && n != start ==>
          ParentNode(s, tree, n).Some? && ParentNode(s, tree, n).value in visited)
    && (forall n, c :: n in visited && c in Children(s, tree, n) ==> c in visited || c in pending)
  }

  /** Popping a node and pushing its children meets nothing twice and misses nothing. */
  lemma PopAndPush(s: StoreView, tree: Blocks, visited: set<Node>, pending: seq<Node>, children: seq<Node>)
    requires Ordered(s.blocks) && TreeUnder(s, tree, s.justified.root)
    requires Midway(s, tree, visited, pending) && pending != []
    requires Distinct(children) && Elements(children) == Children(s, tree, pending[|pending| - 1])
    ensures var node := pending[|pending| - 1];
      && node !in visited && Reached(s, tree, node)
      && Midway(s, tree, visited + {node}, pending[..|pending| - 1] + children)
  {
    hide TreeUnder, Depth, Children, ParentNode, Reached;
    var node := pending[|pending| - 1];
    var rest := pending[..|pending| - 1];
    var start := Node(s.justified.root, Pending);
    assert forall n :: n in pending <==> n in rest || n == node;
    assert node !in rest;
    forall c | c in children
      ensures ParentNode(s, tree, c) == Some(node) && Reached(s, tree, c) && c != start
      ensures c !in visited && c !in pending
    {
      assert c in Elements(children);
      ChildHasOneParent(s, tree, node, c);
      ChildIsReached(s, tree, node, c);
      ReachedIsInPlay(s, tree, node);
      StepGoesDeeper(s, tree, s.justified.root, node, c);
    }
    var next := rest + children;
    assert forall n :: n in next <==> n in rest || n in children;
    assert forall c :: c in Children(s, tree, node) ==> c in children by {
      forall c | c in Children(s, tree, node)
        ensures c in children
      {
        assert c in Elements(children);
      }
    }
    assert Distinct(next) by {
      forall i, j | 0 <= i < j < |next|
        ensures next[i] != next[j]
      {
        if i < |rest| && j >= |rest| {
          assert next[i] in pending && next[j] in children;
        }
      }
    }
  }

  datatype WeightedNode = WeightedNode(node: Node, weight: U64)

  /** `out` lists the leaves among `visited`, each once and with its weight. */
  ghost predicate Listed(cfg: Config, s: StoreView, tree: Blocks, visited: set<Node>, out: seq<WeightedNode>)
    requires Readable(s)
  {
    && (forall i, j :: 0 <= i < j < |out| ==> out[i].node != out[j].node)
    && (forall i :: 0 <= i < |out| ==>
          out[i].node in visited && IsLeaf(s, tree, out[i].node)
          && NodeWeight(cfg, s, out[i].node) == Some(out[i].weight))
    && (forall n :: n in visited && IsLeaf(s, tree, n) ==> exists i :: 0 <= i < |out| && out[i].node == n)
  }

  lemma ListNext(cfg: Config, s: StoreView, tree: Blocks, visited: set<Node>, out: seq<WeightedNode>, w: WeightedNode)
    requires Readable(s) && Listed(cfg, s, tree, visited, out) && w.node !in visited
    ensures !IsLeaf(s, tree, w.node) ==> Listed(cfg, s, tree, visited + {w.node}, out)
    ensures IsLeaf(s, tree, w.node) && NodeWeight(cfg, s, w.node) == Some(w.weight) ==>
      Listed(cfg, s, tree, visited + {w.node}, out + [w])
  {
    hide IsLeaf, NodeWeight, Readable;
    if IsLeaf(s, tree, w.node) && NodeWeight(cfg, s, w.node) == Some(w.weight) {
      var more := out + [w];
      forall n | n in visited + {w.node} && IsLeaf(s, tree, n)
        ensures exists i :: 0 <= i < |more| && more[i].node == n
      {
        if n == w.node {
          assert more[|out|].node == n;
        } else {
          var i :| 0 <= i < |out| && out[i].node == n;
          assert more[i].node == n;
        }
      }
    }
  }

  /**
    * `get_viable_for_head_nodes`: exactly the leaves of the expansion of the filtered
    * tree, each once, with its weight; refused only when a leaf's weight cannot be read.
    */
  method GetViableForHeadNodes(cfg: Config, s: StoreView) returns (viable: Option<seq<WeightedNode>>)
    requires Readable(s)
    ensures FilteredTree(cfg.preset, s).None? ==> viable.None?
    ensures viable.Some? ==>
      var tree := FilteredTree(cfg.preset, s).value;
      && (forall i, j :: 0 <= i < j < |viable.value| ==> viable.value[i].node != viable.value[j].node)
      && (forall i :: 0 <= i < |viable.value| ==>
            && Reached(s, tree, viable.value[i].node) && IsLeaf(s, tree, viable.value[i].node)
            && NodeWeight(cfg, s, viable.value[i].node) == Some(viable.value[i].weight))
      && (forall n :: Reached(s, tree, n) && IsLeaf(s, tree, n) ==>
            exists i :: 0 <= i < |viable.value| && viable.value[i].node == n)
    ensures viable.None? && FilteredTree(cfg.preset, s).Some? ==>
      exists n :: Reached(s, FilteredTree(cfg.preset, s).value, n) && NodeWeight(cfg, s, n).None?
  {
    hide FilteredTree, TreeUnder, Children, Reached, NodeWeight, Midway, Listed, IsLeaf, Universe;
    var tree := GetFilteredBlockTree(cfg.preset, s);
    if tree.None? {
      return None;
    }
    FilteredIsTree(cfg.preset, s, tree.value);
    ghost var universe := Universe(tree.value, s.justified.root);
    ghost var visited: set<Node> := {};
    var pending := [Node(s.justified.root, Pending)];
    var out: seq<WeightedNode> := [];
    Opening(cfg, s, tree.value);
    while pending != []
      invariant visited <= universe
      invariant Midway(s, tree.value, visited, pending) && Listed(cfg, s, tree.value, visited, out)
      decreases universe - visited
    {
      var node := pending[|pending| - 1];
      PendingIsReached(s, tree.value, visited, pending, node);
      ReachedIsInPlay(s, tree.value, node);
      var children := GetNodeChildren(s, tree.value, node);
      PopAndPush(s, tree.value, visited, pending, children.value);
      LeafIffNoChildren(s, tree.value, node, children.value);
      pending := pending[..|pending| - 1];
      if children.value == [] {
        var weight := GetWeight(cfg, s, node);
        if weight.None? {
          return None;
        }
        ListNext(cfg, s, tree.value, visited, out, WeightedNode(node, weight.value));
        out := out + [WeightedNode(node, weight.value)];
        assert pending + children.value == pending;
      } else {
        ListNext(cfg, s, tree.value, visited, out, WeightedNode(node, 0));
        pending := pending + children.value;
      }
      visited := visited + {node};
    }
    Finished(cfg, s, tree.value, visited, out);
    viable := Some(out);
  }

  lemma Opening(cfg: Config, s: StoreView, tree: Blocks)
    requires Readable(s)
    ensures Midway(s, tree, {}, [Node(s.justified.root, Pending)]) && Listed(cfg, s, tree, {}, [])
  {
    hide Children, Reached, NodeWeight, IsLeaf;
    StartIsReached(s, tree);
  }

  lemma PendingIsReached(s: StoreView, tree: Blocks, visited: set<Node>, pending: seq<Node>, node: Node)
    requires Midway(s, tree, visited, pending) && node in pending
    ensures Reached(s, tree, node)
  {
    hide Children, Reached, ParentNode;
  }

  lemma LeafIffNoChildren(s: StoreView, tree: Blocks, node: Node, children: seq<Node>)
    requires Elements(children) == Children(s, tree, node)
    ensures IsLeaf(s, tree, node) <==> children == []
  {
    hide Children;
    if children != [] {
      assert children[0] in Elements(children);
    }
  }

  /** With nothing pending, what was visited is what can be reached. */
  lemma Finished(cfg: Config, s: StoreView, tree: Blocks, visited: set<Node>, out: seq<WeightedNode>)
    requires Readable(s) && Midway(s, tree, visited, []) && Listed(cfg, s, tree, visited, out)
    ensures forall i, j :: 0 <= i < j < |out| ==> out[i].node != out[j].node
    ensures forall i :: 0 <= i < |out| ==>
      && Reached(s, tree, out[i].node) && IsLeaf(s, tree, out[i].node)
      && NodeWeight(cfg, s, out[i].node) == Some(out[i].weight)
    ensures forall n :: Reached(s, tree, n) && IsLeaf(s, tree, n) ==> exists i :: 0 <= i < |out| && out[i].node == n
  {
    hide Children, NodeWeight, IsLeaf, ParentNode;
    forall n | Reached(s, tree, n)
      ensures n in visited
    {
      var p :| IsPath(s, tree, p) && p[0] == Node(s.justified.root, Pending) && p[|p| - 1] == n;
      ClosedHoldsPath(s, tree, visited, p);
    }
  }

  /** The head, whenever there is one, is one of the leaves. */
  lemma HeadIsViable(cfg: Config, s: StoreView)
    requires Readable(s) && Head(cfg, s).Some?
    ensures FilteredTree(cfg.preset, s).Some?
    ensures var tree := FilteredTree(cfg.preset, s).value;
      Reached(s, tree, Head(cfg, s).value) && IsLeaf(s, tree, Head(cfg, s).value)
  {
    hide FilteredTree, HeadFrom, Children, SelectionKey;
    var tree := FilteredTree(cfg.preset, s).value;
    HeadLocation(cfg, s, tree);
    var path :| IsHeadWalk(cfg, s, tree, path) && path[|path| - 1] == Head(cfg, s).value;
    assert IsPath(s, tree, path);
  }
}
